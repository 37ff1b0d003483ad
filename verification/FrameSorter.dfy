/** The frame sorter (quic-go/frame_sorter.go): queue, read cursor and gap list of one stream. */
module FrameSorter {
  import opened Protocol
  import opened Gaps

  const MAX_SORTER_GAPS := 1000

  type Queue = map<nat, Bytes>

  datatype Sorter = Sorter(queue: Queue, readPos: nat, gaps: seq<Interval>)

  datatype Verdict = Stored | Duplicate | NoGapFound | NoEndGapFound | TooManyGaps

  const EMPTY := Sorter(map[], 0, [Interval(0, MAX_BYTE_COUNT)])

  /** The first gap, from index i on, that does not end before `start`. */
  function FirstTouching(gaps: seq<Interval>, start: nat, i: nat): (r: nat)
    requires i <= |gaps|
    ensures i <= r <= |gaps|
    ensures r < |gaps| ==> start <= gaps[r].end
    decreases |gaps| - i
  {
    if i == |gaps| || start <= gaps[i].end then i else FirstTouching(gaps, start, i + 1)
  }

  /** The last of the gaps i, i+1, ... that starts no later than `end` (or i itself). */
  function LastTouching(gaps: seq<Interval>, end: nat, i: nat): (r: nat)
    requires i < |gaps|
    ensures i <= r < |gaps|
    ensures i < r ==> gaps[r].start <= end
    ensures r + 1 < |gaps| ==> end < gaps[r + 1].start
    decreases |gaps| - i
  {
    if i + 1 < |gaps| && gaps[i + 1].start <= end then LastTouching(gaps, end, i + 1) else i
  }

  lemma {:induction false} BeforeFirst(gaps: seq<Interval>, start: nat, i: nat, j: nat)
    requires i <= j < |gaps| && j < FirstTouching(gaps, start, i)
    ensures gaps[j].end < start
    decreases |gaps| - i
  {
    if i < j {
      BeforeFirst(gaps, start, i + 1, j);
    }
  }

  /** The push changes nothing: there is no data, or at least as much is queued at this offset. */
  predicate Shadowed(s: Sorter, offset: nat, data: Bytes) {
    |data| == 0 || (offset in s.queue && |data| <= |s.queue[offset]|)
  }

  /** The frame replaces a shorter queued entry with the same offset. */
  predicate Replaces(s: Sorter, offset: nat, data: Bytes) {
    offset in s.queue && |s.queue[offset]| < |data|
  }

  function Replaced(q: Queue, offset: nat, data: Bytes): Queue {
    if offset in q then q[offset := data] else q
  }

  /** Drops the first queued frame of every block between the gaps first..last, unless it starts at lo. */
  function Drop(queue: Queue, gaps: seq<Interval>, first: nat, last: nat, lo: nat): Queue
    requires first <= last <= |gaps|
  {
    if first == last then queue
    else
      var q := Drop(queue, gaps, first, last - 1, lo);
      if gaps[last - 1].end != lo then q - {gaps[last - 1].end} else q
  }

  /** The gap list when the second walk has reached gap `last`: those in between have been unlinked. */
  function Linked(gaps: seq<Interval>, first: nat, last: nat): seq<Interval>
    requires first <= last < |gaps|
  {
    if first == last then gaps else gaps[..first + 1] + gaps[last..]
  }

  /** The walk ends in front of gap last + 1, or fails at the last gap of the list. */
  ghost predicate Ends(gaps: seq<Interval>, first: nat, last: nat, end: nat, ok: bool) {
    && first <= last < |gaps| && LastTouching(gaps, end, first) == LastTouching(gaps, end, last)
    && if ok then end < gaps[last].end || (last + 1 < |gaps| && end < gaps[last + 1].start)
       else last + 1 == |gaps| && gaps[last].end <= end
  }

  lemma {:induction false} WalkEnds(gaps: seq<Interval>, first: nat, last: nat, end: nat, ok: bool)
    requires WellFormed(gaps) && Ends(gaps, first, last, end, ok)
    ensures ok == (end < MAX_BYTE_COUNT)
    ensures last == if ok then LastTouching(gaps, end, first) else |gaps| - 1
  {
    EndBounded(gaps, last);
  }

  /** What is left of the gaps first..last once [lo, hi) has been received. */
  function Remaining(gaps: seq<Interval>, first: nat, last: nat, lo: nat, hi: nat): seq<Interval>
    requires first <= last < |gaps|
  {
    (if gaps[first].start < lo then [Interval(gaps[first].start, lo)] else [])
    + (if hi < gaps[last].end then [Interval(hi, gaps[last].end)] else [])
  }

  /** The gaps first..last are those a frame [s, e) touches; it reaches past the start of the first. */
  ghost predicate Touches(gaps: seq<Interval>, s: nat, e: nat, first: nat, last: nat) {
    && first <= last < |gaps|
    && gaps[first].start < gaps[first].end && gaps[last].start < gaps[last].end
    && s <= gaps[first].end && gaps[first].start < e
    && (first < last ==> gaps[first].end < gaps[last].start <= e)
    && (last + 1 < |gaps| ==> e < gaps[last + 1].start)
  }

  function Outcome(s: Sorter): Verdict {
    if |s.gaps| > MAX_SORTER_GAPS then TooManyGaps else Stored
  }

  /** The sorter after storing a frame that touches the gaps first..last. */
  function Stores(s: Sorter, offset: nat, data: Bytes, first: nat, last: nat): Sorter
    requires |data| > 0 && Touches(s.gaps, offset, offset + |data|, first, last)
  {
    var end := offset + |data|;
    var lo, hi := Max(offset, s.gaps[first].start), Min(end, s.gaps[last].end);
    var gaps := s.gaps[..first] + Remaining(s.gaps, first, last, lo, hi) + s.gaps[last + 1..];
    var kept := Drop(s.queue, s.gaps, first, last, lo);
    var queue := if |gaps| > MAX_SORTER_GAPS then kept else kept[lo := data[lo - offset..hi - offset]];
    Sorter(queue, s.readPos, gaps)
  }

  /** The sorter when the second walk fails at the last gap, having dropped what the frame covers. */
  function Failed(s: Sorter, first: nat, lo: nat): Sorter
    requires first < |s.gaps|
  {
    var last := |s.gaps| - 1;
    Sorter(Drop(s.queue, s.gaps, first, last, lo), s.readPos, Linked(s.gaps, first, last))
  }

  /** Outcome and next state of a push that touches the given gap first (lines 79-163). */
  function InsertAt(s: Sorter, offset: nat, data: Bytes, first: nat): (Verdict, Sorter)
    requires WellFormed(s.gaps) && |data| > 0
    requires first == FirstTouching(s.gaps, offset, 0) < |s.gaps| && s.gaps[first].start < offset + |data|
  {
    var end := offset + |data|;
    if MAX_BYTE_COUNT <= end then
      (NoEndGapFound, Failed(s, first, Max(offset, s.gaps[first].start)))
    else
      TouchesFirstLast(s.gaps, offset, end);
      var s' := Stores(s, offset, data, first, LastTouching(s.gaps, end, first));
      (Outcome(s'), s')
  }

  /** Outcome and next state of a push that passed the shadowing test (lines 60-163). */
  function Insert(s: Sorter, offset: nat, data: Bytes): (Verdict, Sorter)
    requires WellFormed(s.gaps) && |data| > 0
  {
    var end := offset + |data|;
    var first := FirstTouching(s.gaps, offset, 0);
    if first == |s.gaps| then (NoGapFound, s)
    else if end <= s.gaps[first].start then (Duplicate, s)
    else InsertAt(s, offset, data, first)
  }

  /** Outcome and next state of a push (lines 43-163). */
  function Push(s: Sorter, offset: nat, data: Bytes): (Verdict, Sorter)
    requires WellFormed(s.gaps)
  {
    if Shadowed(s, offset, data) then (Duplicate, s)
    else Insert(s.(queue := Replaced(s.queue, offset, data)), offset, data)
  }

  lemma {:induction false} TouchesFirstLast(gaps: seq<Interval>, s: nat, e: nat)
    requires WellFormed(gaps) && FirstTouching(gaps, s, 0) < |gaps|
    requires gaps[FirstTouching(gaps, s, 0)].start < e
    ensures var first := FirstTouching(gaps, s, 0);
            Touches(gaps, s, e, first, LastTouching(gaps, e, first))
  {
    var first := FirstTouching(gaps, s, 0);
    var last := LastTouching(gaps, e, first);
    assert first < last ==> Before(gaps, first, last);
  }

  lemma {:induction false} GapsBeforeFirst(gaps: seq<Interval>, s: nat)
    ensures forall j | 0 <= j < FirstTouching(gaps, s, 0) :: gaps[j].end < s
  {
    forall j | 0 <= j < FirstTouching(gaps, s, 0) ensures gaps[j].end < s {
      BeforeFirst(gaps, s, 0, j);
    }
  }

  lemma {:induction false} SpliceWellFormed(gaps: seq<Interval>, s: nat, e: nat, first: nat, last: nat)
    requires s < e < MAX_BYTE_COUNT && WellFormed(gaps) && Touches(gaps, s, e, first, last)
    ensures var rem := Remaining(gaps, first, last, Max(s, gaps[first].start), Min(e, gaps[last].end));
            WellFormed(gaps[..first] + rem + gaps[last + 1..])
  {
    var rem := Remaining(gaps, first, last, Max(s, gaps[first].start), Min(e, gaps[last].end));
    var pre, post := gaps[..first], gaps[last + 1..];
    assert Separated(post) by {
      SeparatedSlice(gaps, last + 1, |gaps|);
      assert post == gaps[last + 1..|gaps|];
    }
    forall i | 0 <= i < |post| ensures gaps[last].end < post[i].start {
      assert Before(gaps, last, last + 1 + i);
    }
    var left := pre + rem;
    SpliceLeft(gaps, rem, left, s, e, first, last);
    SeparatedConcat(left, post, gaps[last].end + 1);
  }

  lemma {:induction false} SpliceLeft(gaps: seq<Interval>, rem: seq<Interval>, left: seq<Interval>, s: nat, e: nat,
                                      first: nat, last: nat)
    requires s < e && Separated(gaps) && Touches(gaps, s, e, first, last)
    requires rem == Remaining(gaps, first, last, Max(s, gaps[first].start), Min(e, gaps[last].end))
    requires left == gaps[..first] + rem
    ensures Separated(left)
    ensures forall i | 0 <= i < |left| :: left[i].end <= gaps[last].end
  {
    var pre := gaps[..first];
    SeparatedSlice(gaps, 0, first);
    assert pre == gaps[0..first];
    forall i | 0 <= i < |pre| ensures pre[i].end < gaps[first].start {
      assert Before(gaps, i, first);
    }
    SeparatedConcat(pre, rem, gaps[first].start);
  }

  lemma {:induction false} StoresWellFormed(s: Sorter, offset: nat, data: Bytes, first: nat, last: nat)
    requires WellFormed(s.gaps) && |data| > 0 && offset + |data| < MAX_BYTE_COUNT
             && Touches(s.gaps, offset, offset + |data|, first, last)
    ensures WellFormed(Stores(s, offset, data, first, last).gaps)
  {
    SpliceWellFormed(s.gaps, offset, offset + |data|, first, last);
  }

  /** A frame that touches missing bytes is stored. */
  lemma {:induction false} InsertStores(s: Sorter, offset: nat, data: Bytes, first: nat, last: nat)
    requires WellFormed(s.gaps) && |data| > 0 && offset + |data| < MAX_BYTE_COUNT
    requires first == FirstTouching(s.gaps, offset, 0) < |s.gaps| && s.gaps[first].start < offset + |data|
    requires last == LastTouching(s.gaps, offset + |data|, first)
    ensures Touches(s.gaps, offset, offset + |data|, first, last)
    ensures Insert(s, offset, data).1 == Stores(s, offset, data, first, last)
    ensures Insert(s, offset, data).0 == Outcome(Stores(s, offset, data, first, last))
  {
    TouchesFirstLast(s.gaps, offset, offset + |data|);
  }

  lemma {:induction false} LinkedWellFormed(gaps: seq<Interval>, first: nat, last: nat)
    requires WellFormed(gaps) && first <= last == |gaps| - 1
    ensures WellFormed(Linked(gaps, first, last))
  {
    if first < last {
      var pre := gaps[..first + 1];
      SeparatedSlice(gaps, 0, first + 1);
      assert pre == gaps[0..first + 1];
      forall i | 0 <= i < |pre| ensures pre[i].end < gaps[last].start {
        assert Before(gaps, i, last);
      }
      SeparatedSlice(gaps, last, |gaps|);
      assert gaps[last..] == gaps[last..|gaps|];
      SeparatedConcat(pre, gaps[last..], gaps[last].start);
    }
  }

  /** A frame that reaches the largest offset unlinks and drops what it passes before it is refused. */
  lemma {:induction false} InsertFails(s: Sorter, offset: nat, data: Bytes, first: nat)
    requires WellFormed(s.gaps) && |data| > 0 && MAX_BYTE_COUNT <= offset + |data|
    requires first == FirstTouching(s.gaps, offset, 0) < |s.gaps| && s.gaps[first].start < offset + |data|
    ensures Insert(s, offset, data) == (NoEndGapFound, Failed(s, first, Max(offset, s.gaps[first].start)))
  {
  }

  lemma {:induction false} InsertIgnores(s: Sorter, offset: nat, data: Bytes, first: nat)
    requires WellFormed(s.gaps) && |data| > 0 && first == FirstTouching(s.gaps, offset, 0)
    requires first == |s.gaps| || offset + |data| <= s.gaps[first].start
    ensures Insert(s, offset, data).1 == s
  {
  }

  lemma {:induction false} InsertWellFormed(s: Sorter, offset: nat, data: Bytes, s': Sorter)
    requires WellFormed(s.gaps) && |data| > 0 && s' == Insert(s, offset, data).1
    ensures WellFormed(s'.gaps)
  {
    var end := offset + |data|;
    var first := FirstTouching(s.gaps, offset, 0);
    if first == |s.gaps| || end <= s.gaps[first].start {
      InsertIgnores(s, offset, data, first);
    } else if end < MAX_BYTE_COUNT {
      var last := LastTouching(s.gaps, end, first);
      InsertStores(s, offset, data, first, last);
      StoresWellFormed(s, offset, data, first, last);
    } else {
      InsertFails(s, offset, data, first);
      LinkedWellFormed(s.gaps, first, |s.gaps| - 1);
    }
  }

  /** No outcome of a push breaks the gap list. */
  lemma {:induction false} PushWellFormed(s: Sorter, offset: nat, data: Bytes)
    requires WellFormed(s.gaps)
    ensures WellFormed(Push(s, offset, data).1.gaps)
  {
    if !Shadowed(s, offset, data) {
      InsertWellFormed(s.(queue := Replaced(s.queue, offset, data)), offset, data, Push(s, offset, data).1);
    }
  }

  function Pop(s: Sorter): Sorter {
    if s.readPos in s.queue then
      Sorter(s.queue - {s.readPos}, s.readPos + |s.queue[s.readPos]|, s.gaps)
    else s
  }

  class FrameSorter {
    var queue: Queue
    var readPos: nat
    var gaps: seq<Interval>

    ghost function State(): Sorter
      reads this
    {
      Sorter(queue, readPos, gaps)
    }

    ghost predicate Valid()
      reads this
    {
      WellFormed(gaps)
    }

    constructor ()
      ensures Valid() && State() == EMPTY
    {
      queue := map[];
      readPos := 0;
      gaps := [Interval(0, MAX_BYTE_COUNT)];
    }

    /** Skips all gaps before the frame (lines 63-73). */
    method FindFirst(start: nat, end: nat) returns (first: nat, duplicate: bool)
      requires Valid() && start < end
      ensures first == FirstTouching(gaps, start, 0)
      ensures duplicate == (first < |gaps| && end <= gaps[first].start)
    {
      first := 0;
      while first < |gaps| && !(gaps[first].start < end && start <= gaps[first].end)
        invariant 0 <= first <= |gaps|
        invariant FirstTouching(gaps, start, 0) == FirstTouching(gaps, start, first)
      {
        if end <= gaps[first].start {
          return first, true;
        }
        first := first + 1;
      }
      return first, false;
    }

    /**
     * Walks to the last gap that starts before the end of the frame, dropping the first queued frame
     * of every block that is covered (lines 88-110).
     */
    method Walk(first: nat, lo: nat, end: nat) returns (ok: bool, last: nat)
      requires first < |gaps|
      modifies this`queue
      ensures Ends(gaps, first, last, end, ok)
      ensures queue == Drop(old(queue), gaps, first, last, lo)
    {
      last := first;
      while end >= gaps[last].end
        invariant first <= last < |gaps|
        invariant LastTouching(gaps, end, first) == LastTouching(gaps, end, last)
        invariant queue == Drop(old(queue), gaps, first, last, lo)
        decreases |gaps| - last
      {
        if last + 1 == |gaps| {
          return false, last;
        }
        if end < gaps[last + 1].start {
          return true, last;
        }
        if gaps[last].end != lo {
          queue := queue - {gaps[last].end};
        }
        last := last + 1;
      }
      ok := true;
    }

    /** The walk; the gaps passed on the way are unlinked in one step, here if it fails and else by Shrink. */
    method Absorb(first: nat, lo: nat, end: nat) returns (ok: bool, last: nat)
      requires Valid() && first < |gaps|
      modifies this`queue, this`gaps
      ensures ok == (end < MAX_BYTE_COUNT)
      ensures ok ==> last == LastTouching(old(gaps), end, first) && gaps == old(gaps)
      ensures ok ==> queue == Drop(old(queue), gaps, first, last, lo)
      ensures !ok ==> State() == Failed(old(State()), first, lo)
    {
      ok, last := Walk(first, lo, end);
      WalkEnds(gaps, first, last, end, ok);
      if !ok {
        UnlinkBetween(first, last);
      }
    }

    method UnlinkBetween(first: nat, last: nat)
      requires first <= last < |gaps|
      modifies this`gaps
      ensures gaps == Linked(old(gaps), first, last)
    {
      if first < last {
        gaps := gaps[..first + 1] + gaps[last..];
      }
    }

    /** Adjusts the two outer gaps to the stored range [lo, hi) and unlinks those between (lines 120-146). */
    method Shrink(first: nat, last: nat, lo: nat, hi: nat)
      requires first <= last < |gaps| && gaps[first].start <= lo <= gaps[first].end && lo <= hi <= gaps[last].end
      requires first < last ==> gaps[first].end < gaps[last].start <= hi
      modifies this`gaps
      ensures gaps == old(gaps)[..first] + Remaining(old(gaps), first, last, lo, hi) + old(gaps)[last + 1..]
    {
      var gap, endGap := gaps[first], gaps[last];
      if lo == gap.start {
        if hi >= endGap.end {
          gaps := gaps[..first] + gaps[last + 1..];
        } else {
          gaps := gaps[..first] + [endGap.(start := hi)] + gaps[last + 1..];
        }
      } else if hi == endGap.end {
        gaps := gaps[..first] + [gap.(end := lo)] + gaps[last + 1..];
      } else if first == last {
        var rest := Interval(hi, gap.end);
        gaps := gaps[..first] + [gap.(end := lo), rest] + gaps[last + 1..];
      } else {
        gaps := gaps[..first] + [gap.(end := lo), endGap.(start := hi)] + gaps[last + 1..];
      }
    }

    /** Cuts the frame to the missing range, updates gaps and queue (lines 79-163). */
    method Store(data: Bytes, offset: nat, first: nat, last: nat, lo: nat, ghost s: Sorter) returns (r: Verdict)
      requires |data| > 0 && Touches(s.gaps, offset, offset + |data|, first, last)
      requires lo == Max(offset, s.gaps[first].start)
      requires State() == s.(queue := Drop(s.queue, s.gaps, first, last, lo))
      modifies this`queue, this`gaps
      ensures State() == Stores(s, offset, data, first, last) && r == Outcome(State())
    {
      var hi, kept := offset + |data|, data[lo - offset..];
      if hi > gaps[last].end {
        kept := kept[..|kept| - (hi - gaps[last].end)];
        hi := gaps[last].end;
      }
      assert kept == data[lo - offset..hi - offset];
      Shrink(first, last, lo, hi);
      if |gaps| > MAX_SORTER_GAPS {
        return TooManyGaps;
      }
      queue := queue[lo := kept];
      return Stored;
    }

    /** The part of push behind the first walk (lines 79-163). */
    method InsertBehind(data: Bytes, offset: nat, first: nat) returns (r: Verdict)
      requires Valid() && |data| > 0
      requires first == FirstTouching(gaps, offset, 0) < |gaps| && gaps[first].start < offset + |data|
      modifies this`queue, this`gaps
      ensures r == InsertAt(old(State()), offset, data, first).0
      ensures State() == InsertAt(old(State()), offset, data, first).1
    {
      ghost var s := State();
      var end := offset + |data|;
      var lo := if offset < gaps[first].start then gaps[first].start else offset;
      TouchesFirstLast(s.gaps, offset, end);
      var ok, last := Absorb(first, lo, end);
      if ok {
        r := Store(data, offset, first, last, lo, s);
      } else {
        r := NoEndGapFound;
      }
    }

    method InsertFrame(data: Bytes, offset: nat) returns (r: Verdict)
      requires Valid() && |data| > 0
      modifies this`queue, this`gaps
      ensures r == Insert(old(State()), offset, data).0
      ensures State() == Insert(old(State()), offset, data).1
    {
      var first, duplicate := FindFirst(offset, offset + |data|);
      if duplicate {
        return Duplicate;
      }
      if first == |gaps| {
        return NoGapFound;
      }
      r := InsertBehind(data, offset, first);
    }

    method PushFrame(data: Bytes, offset: nat) returns (r: Verdict)
      requires Valid()
      modifies this
      ensures r == Push(old(State()), offset, data).0
      ensures Valid() && State() == Push(old(State()), offset, data).1
    {
      PushWellFormed(State(), offset, data);
      if |data| == 0 {
        return Duplicate;
      }
      if offset in queue {
        if |data| <= |queue[offset]| {
          return Duplicate;
        }
        queue := queue[offset := data];
      }
      r := InsertFrame(data, offset);
    }

    method PopFrame() returns (offset: nat, data: Bytes, ok: bool)
      requires Valid()
      modifies this
      ensures Valid()
      ensures offset == old(readPos) && ok == (old(readPos) in old(queue))
      ensures data == if ok then old(queue)[offset] else []
      ensures State() == Pop(old(State()))
    {
      offset := readPos;
      if readPos !in queue {
        return offset, [], false;
      }
      data := queue[readPos];
      ok := true;
      queue := queue - {readPos};
      readPos := readPos + |data|;
    }
  }
}
