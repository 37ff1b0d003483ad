/** Delivery by the frame sorter: when popping reaches every byte that has been received. */
module SorterDelivery {
  // Replacing a queued entry by a longer one (lines 48-58 of quic-go/frame_sorter.go) can cut the path
  // of entries the reader follows. The module states exactly which pushes do.

  import opened Protocol
  import opened Gaps
  import opened FrameSorter
  import opened SorterExactness
  import Seqs

  /** Following non-empty queue entries from a leads to exactly b. */
  ghost predicate Chain(q: Queue, a: nat, b: nat)
    decreases b - a
  {
    a == b || (a < b && a in q && |q[a]| > 0 && Chain(q, a + |q[a]|, b))
  }

  lemma {:induction false} ChainOrder(q: Queue, a: nat, b: nat)
    requires Chain(q, a, b)
    ensures a <= b
    decreases b - a
  {
  }

  lemma {:induction false} ChainConcat(q: Queue, a: nat, b: nat, c: nat)
    requires Chain(q, a, b) && b <= c
    ensures Chain(q, a, c) <==> Chain(q, b, c)
    decreases b - a
  {
    if a < b {
      ChainConcat(q, a + |q[a]|, b, c);
    }
  }

  /** The two queues agree on all keys in [a, b). */
  ghost predicate Agree(q: Queue, q': Queue, a: nat, b: nat) {
    forall k | a <= k < b :: (k in q <==> k in q') && (k in q ==> q[k] == q'[k])
  }

  ghost predicate AgreeFrom(q: Queue, q': Queue, a: nat) {
    forall k: nat | a <= k :: (k in q <==> k in q') && (k in q ==> q[k] == q'[k])
  }

  lemma {:induction false} ChainAgree(q: Queue, q': Queue, a: nat, b: nat)
    requires Agree(q, q', a, b)
    ensures Chain(q, a, b) <==> Chain(q', a, b)
    decreases b - a
  {
    if a < b && a in q && |q[a]| > 0 {
      ChainAgree(q, q', a + |q[a]|, b);
    }
  }

  /** Replacing an entry that is not on the path leaves the path intact. */
  lemma {:induction false} ChainSkip(q: Queue, k: nat, v: Bytes, a: nat, b: nat)
    requires Chain(q, a, b) && !(k < b && Chain(q, a, k))
    ensures Chain(q[k := v], a, b)
    decreases b - a
  {
    if a < b {
      ChainOrder(q, a + |q[a]|, b);
      ChainSkip(q, k, v, a + |q[a]|, b);
    }
  }

  /** A path exists from `from` to the first gap, and from the end of every gap to the next one. */
  ghost predicate Paths(q: Queue, from: nat, gaps: seq<Interval>)
    decreases |gaps|
  {
    |gaps| == 0 || (Chain(q, from, gaps[0].start) && Paths(q, gaps[0].end, gaps[1..]))
  }

  /** Popping reaches the first gap, now and after any later gap has been filled. */
  ghost predicate Deliverable(s: Sorter) {
    Paths(s.queue, s.readPos, s.gaps)
  }

  function EndOf(from: nat, gaps: seq<Interval>): nat {
    if |gaps| == 0 then from else gaps[|gaps| - 1].end
  }

  lemma {:induction false} PathsConcat(q: Queue, from: nat, a: seq<Interval>, b: seq<Interval>)
    ensures Paths(q, from, a + b) <==> Paths(q, from, a) && Paths(q, EndOf(from, a), b)
    decreases |a|
  {
    if |a| == 0 {
      assert a + b == b;
    } else {
      assert (a + b)[1..] == a[1..] + b;
      PathsConcat(q, a[0].end, a[1..], b);
    }
  }

  /** Changing the queue outside [lo, hi) keeps the paths that stay inside. */
  lemma {:induction false} PathsAgree(q: Queue, q': Queue, from: nat, gaps: seq<Interval>, hi: nat)
    requires Agree(q, q', from, hi)
    requires Separated(gaps) && (|gaps| > 0 ==> from <= gaps[0].start && gaps[|gaps| - 1].start <= hi)
    ensures Paths(q, from, gaps) <==> Paths(q', from, gaps)
    decreases |gaps|
  {
    if |gaps| > 0 {
      var n := |gaps| - 1;
      assert n > 0 ==> Before(gaps, 0, n) && Before(gaps, 0, 1);
      ChainAgree(q, q', from, gaps[0].start);
      SeparatedSlice(gaps, 1, |gaps|);
      Seqs.SliceToEnd(gaps, 1);
      PathsAgree(q, q', gaps[0].end, gaps[1..], hi);
    }
  }

  /** The block before gap i: received bytes from here up to the gap's start. */
  function BlockStart(s: Sorter, i: nat): nat
    requires i < |s.gaps|
  {
    if i == 0 then s.readPos else s.gaps[i - 1].end
  }

  /** The path through block i visits `offset`. */
  ghost predicate OnPath(s: Sorter, i: nat, offset: nat) {
    i < |s.gaps| && offset < s.gaps[i].start && Chain(s.queue, BlockStart(s, i), offset)
  }

  /** `x` lies strictly inside block m. */
  predicate Inside(s: Sorter, m: nat, x: nat) {
    m < |s.gaps| && BlockStart(s, m) < x < s.gaps[m].start
  }

  /**
   * An entry at `offset`, on the path through block i, would be replaced by one ending inside
   * block m. If `offset` is where a gap ends, block m must be its own; otherwise no path of
   * queued entries may lead from the frame's end to the end of block m.
   */
  ghost predicate StallsAt(s: Sorter, offset: nat, data: Bytes, i: nat, m: nat) {
    && OnPath(s, i, offset)
    && Inside(s, m, offset + |data|)
    && if i > 0 && offset == s.gaps[i - 1].end then i == m
       else !Chain(s.queue, offset + |data|, s.gaps[m].start)
  }

  /** The pushes that break delivery, told from the state before the push. */
  ghost predicate Stalls(s: Sorter, offset: nat, data: Bytes) {
    Replaces(s, offset, data) && exists i: nat, m: nat :: StallsAt(s, offset, data, i, m)
  }

  lemma {:induction false} DropKeeps(q: Queue, gaps: seq<Interval>, first: nat, last: nat, lo: nat, k: nat)
    requires first <= last <= |gaps|
    requires k == lo || forall j | first <= j < last :: gaps[j].end != k
    ensures k in Drop(q, gaps, first, last, lo) <==> k in q
    ensures k in q ==> Drop(q, gaps, first, last, lo)[k] == q[k]
  {
    if first < last {
      DropKeeps(q, gaps, first, last - 1, lo, k);
    }
  }

  /** Where a frame that touches the gaps first..last starts and ends after cutting. */
  function Lo(s: Sorter, offset: nat, first: nat): nat
    requires first < |s.gaps|
  {
    Max(offset, s.gaps[first].start)
  }

  function Hi(s: Sorter, end: nat, last: nat): nat
    requires last < |s.gaps|
  {
    Min(end, s.gaps[last].end)
  }

  /** Storing a frame leaves the queue alone outside the stored range. */
  lemma {:induction false} StoresAgree(s: Sorter, offset: nat, data: Bytes, first: nat, last: nat)
    requires Separated(s.gaps) && |data| > 0 && Touches(s.gaps, offset, offset + |data|, first, last)
    requires |Stores(s, offset, data, first, last).gaps| <= MAX_SORTER_GAPS
    ensures var q := Stores(s, offset, data, first, last).queue;
            var lo, hi := Lo(s, offset, first), Hi(s, offset + |data|, last);
            && (forall k: nat | k < lo || (hi <= k && k != lo) ::
                  (k in q <==> k in s.queue) && (k in s.queue ==> q[k] == s.queue[k]))
            && lo in q && lo <= hi && |q[lo]| == hi - lo
  {
    var q := Stores(s, offset, data, first, last).queue;
    var lo, hi := Lo(s, offset, first), Hi(s, offset + |data|, last);
    forall k: nat | k < lo || (hi <= k && k != lo)
      ensures (k in q <==> k in s.queue) && (k in s.queue ==> q[k] == s.queue[k])
    {
      forall j | first <= j < last ensures lo <= s.gaps[j].end < hi {
        assert Before(s.gaps, j, last);
        assert first < j ==> Before(s.gaps, first, j);
      }
      DropKeeps(s.queue, s.gaps, first, last, lo, k);
    }
  }

  /** The gaps above the stored range. */
  function Above(s: Sorter, end: nat, last: nat): seq<Interval>
    requires last < |s.gaps|
  {
    (if Hi(s, end, last) < s.gaps[last].end then [Interval(Hi(s, end, last), s.gaps[last].end)] else [])
    + s.gaps[last + 1..]
  }

  /** Where the path that the stored frame belongs to begins. */
  function Begin(s: Sorter, offset: nat, first: nat): nat
    requires first < |s.gaps|
  {
    if s.gaps[first].start < offset then offset else BlockStart(s, first)
  }

  /** The paths of the old state, cut at the touched gaps. */
  lemma {:induction false} PathsAround(s: Sorter, first: nat, last: nat)
    requires Deliverable(s) && first <= last < |s.gaps|
    ensures Paths(s.queue, s.readPos, s.gaps[..first])
    ensures EndOf(s.readPos, s.gaps[..first]) == BlockStart(s, first)
    ensures Chain(s.queue, BlockStart(s, first), s.gaps[first].start)
    ensures Paths(s.queue, s.gaps[last].end, s.gaps[last + 1..])
  {
    PathsBefore(s, first);
    PathsBehind(s, last);
  }

  lemma {:induction false} PathsBefore(s: Sorter, first: nat)
    requires Deliverable(s) && first < |s.gaps|
    ensures Paths(s.queue, s.readPos, s.gaps[..first])
    ensures EndOf(s.readPos, s.gaps[..first]) == BlockStart(s, first)
    ensures Chain(s.queue, BlockStart(s, first), s.gaps[first].start)
  {
    PathsCut(s.queue, s.readPos, s.gaps, first);
    assert s.gaps[first..][0] == s.gaps[first];
  }

  lemma {:induction false} PathsBehind(s: Sorter, last: nat)
    requires Deliverable(s) && last < |s.gaps|
    ensures Paths(s.queue, s.gaps[last].end, s.gaps[last + 1..])
  {
    PathsCut(s.queue, s.readPos, s.gaps, last + 1);
    assert s.gaps[..last + 1][last] == s.gaps[last];
  }

  lemma {:induction false} PathsCut(q: Queue, from: nat, gaps: seq<Interval>, i: nat)
    requires Paths(q, from, gaps) && i <= |gaps|
    ensures Paths(q, from, gaps[..i]) && Paths(q, EndOf(from, gaps[..i]), gaps[i..])
  {
    assert gaps == gaps[..i] + gaps[i..];
    PathsConcat(q, from, gaps[..i], gaps[i..]);
  }

  /** Paths below the first touched gap survive any change of the queue from `offset` on. */
  lemma {:induction false} PathsBelow(s: Sorter, q: Queue, offset: nat, first: nat)
    requires Inv(s) && Deliverable(s) && first < |s.gaps|
    requires first > 0 ==> s.gaps[first - 1].end < offset
    requires Agree(s.queue, q, 0, offset)
    ensures Paths(q, s.readPos, s.gaps[..first])
    ensures s.gaps[first].start < offset ==> Chain(q, BlockStart(s, first), s.gaps[first].start)
  {
    PathsAround(s, first, first);
    var pre := s.gaps[..first];
    assert Separated(pre) by {
      SeparatedSlice(s.gaps, 0, first);
      assert pre == s.gaps[0..first];
    }
    ReadPosBound(s);
    PathsAgree(s.queue, q, s.readPos, pre, offset);
    if s.gaps[first].start < offset {
      ChainAgree(s.queue, q, BlockStart(s, first), s.gaps[first].start);
    }
  }

  /** Paths above the last touched gap survive any change of the queue before its end. */
  lemma {:induction false} PathsAbove(s: Sorter, q: Queue, last: nat)
    requires Inv(s) && Deliverable(s) && last < |s.gaps|
    requires AgreeFrom(s.queue, q, s.gaps[last].end)
    ensures Paths(q, s.gaps[last].end, s.gaps[last + 1..])
  {
    PathsAround(s, last, last);
    var post := s.gaps[last + 1..];
    if |post| > 0 {
      assert Separated(post) by {
        SeparatedSlice(s.gaps, last + 1, |s.gaps|);
        assert post == s.gaps[last + 1..|s.gaps|];
      }
      assert Before(s.gaps, last, last + 1);
      PathsAgree(s.queue, q, s.gaps[last].end, post, post[|post| - 1].start);
    }
  }

  lemma {:induction false} ReadPosBound(s: Sorter)
    requires Inv(s)
    ensures s.readPos <= s.gaps[0].start
  {
    assert Missing(s.gaps, s.gaps[0].start);
  }

  function Below(s: Sorter, offset: nat, first: nat): seq<Interval>
    requires first < |s.gaps|
  {
    s.gaps[..first] + (if s.gaps[first].start < offset then [Interval(s.gaps[first].start, offset)] else [])
  }

  lemma {:induction false} BelowPaths(s: Sorter, q: Queue, offset: nat, first: nat)
    requires Inv(s) && Deliverable(s) && first < |s.gaps|
    requires first > 0 ==> s.gaps[first - 1].end < offset
    requires Agree(s.queue, q, 0, offset)
    ensures Paths(q, s.readPos, Below(s, offset, first))
    ensures EndOf(s.readPos, Below(s, offset, first)) == Begin(s, offset, first)
  {
    PathsBelow(s, q, offset, first);
    PathsAround(s, first, first);
    if s.gaps[first].start < offset {
      var left := [Interval(s.gaps[first].start, offset)];
      PathsConcat(q, s.readPos, s.gaps[..first], left);
      assert left[1..] == [];
    } else {
      assert Below(s, offset, first) == s.gaps[..first];
    }
  }

  lemma {:induction false} AbovePaths(s: Sorter, q: Queue, end: nat, last: nat)
    requires Inv(s) && Deliverable(s) && last < |s.gaps| && end < MAX_BYTE_COUNT
    requires AgreeFrom(s.queue, q, s.gaps[last].end)
    ensures var above := Above(s, end, last); |above| > 0 && Paths(q, above[0].end, above[1..])
  {
    PathsAbove(s, q, last);
    EndBounded(s.gaps, last);
    var above := Above(s, end, last);
    if Hi(s, end, last) < s.gaps[last].end {
      assert above[1..] == s.gaps[last + 1..];
    } else {
      assert above == s.gaps[last + 1..];
    }
  }

  lemma {:induction false} SpliceSides(s: Sorter, offset: nat, end: nat, first: nat, last: nat)
    requires first <= last < |s.gaps|
    ensures s.gaps[..first] + Remaining(s.gaps, first, last, Lo(s, offset, first), Hi(s, end, last))
            + s.gaps[last + 1..]
            == Below(s, offset, first) + Above(s, end, last)
  {
  }

  /** After a store, delivery hinges on the one path through the stored frame. */
  lemma {:induction false} StoresPaths(s: Sorter, q: Queue, gs: seq<Interval>, offset: nat, end: nat, first: nat,
                                       last: nat)
    requires Inv(s) && Deliverable(s) && offset < end < MAX_BYTE_COUNT
    requires Touches(s.gaps, offset, end, first, last) && (first > 0 ==> s.gaps[first - 1].end < offset)
    requires Agree(s.queue, q, 0, offset) && AgreeFrom(s.queue, q, s.gaps[last].end)
    requires gs == s.gaps[..first] + Remaining(s.gaps, first, last, Lo(s, offset, first), Hi(s, end, last))
             + s.gaps[last + 1..]
    ensures |Above(s, end, last)| > 0
    ensures Paths(q, s.readPos, gs) <==> Chain(q, Begin(s, offset, first), Above(s, end, last)[0].start)
  {
    SpliceSides(s, offset, end, first, last);
    BelowPaths(s, q, offset, first);
    AbovePaths(s, q, end, last);
    PathsConcat(q, s.readPos, Below(s, offset, first), Above(s, end, last));
  }

  /** The path from the end of the stored range on is intact. */
  lemma {:induction false} PathAfter(s: Sorter, q: Queue, end: nat, last: nat)
    requires Inv(s) && Deliverable(s) && last < |s.gaps| && end < MAX_BYTE_COUNT
    requires AgreeFrom(s.queue, q, s.gaps[last].end)
    requires last + 1 < |s.gaps| ==> end < s.gaps[last + 1].start
    ensures |Above(s, end, last)| > 0
    ensures Chain(q, Hi(s, end, last), Above(s, end, last)[0].start)
    ensures end <= Above(s, end, last)[0].start
    ensures Hi(s, end, last) < end ==> last + 1 < |s.gaps| && Above(s, end, last)[0].start == s.gaps[last + 1].start
    ensures Hi(s, end, last) < end ==>
              (Chain(q, end, s.gaps[last + 1].start) <==> Chain(s.queue, end, s.gaps[last + 1].start))
  {
    AbovePaths(s, q, end, last);
    PathsAround(s, last, last);
    PathsAbove(s, q, last);
    EndBounded(s.gaps, last);
    if Hi(s, end, last) < end {
      ChainAgree(s.queue, q, end, Above(s, end, last)[0].start);
    }
  }

  /** A frame that starts inside a gap extends a path to the next gap. */
  lemma {:induction false} PathFromOffset(s: Sorter, q: Queue, offset: nat, end: nat, first: nat, last: nat)
    requires Inv(s) && Deliverable(s) && offset < end < MAX_BYTE_COUNT
    requires Touches(s.gaps, offset, end, first, last)
    requires AgreeFrom(s.queue, q, s.gaps[last].end)
    requires offset in q && |q[offset]| == Hi(s, end, last) - offset > 0
    ensures |Above(s, end, last)| > 0 && Chain(q, offset, Above(s, end, last)[0].start)
  {
    PathAfter(s, q, end, last);
  }

  /** The replaced entry was on the path and the frame ends inside a block, off the path to its end. */
  ghost predicate Cuts(s: Sorter, offset: nat, data: Bytes, first: nat, last: nat)
    requires first < |s.gaps| && last < |s.gaps|
  {
    && Replaces(s, offset, data)
    && OnPath(s, first, offset)
    && s.gaps[last].end < offset + |data|
    && last + 1 < |s.gaps|
    && !Chain(s.queue, offset + |data|, s.gaps[last + 1].start)
  }

  /** A frame that starts before a gap: whether the path up to the next gap is intact. */
  lemma {:induction false} PathAcrossGap(s: Sorter, q: Queue, offset: nat, data: Bytes, first: nat, last: nat)
    requires Inv(s) && Deliverable(s) && !Shadowed(s, offset, data) && offset + |data| < MAX_BYTE_COUNT
    requires Touches(s.gaps, offset, offset + |data|, first, last) && offset <= s.gaps[first].start
    requires Agree(Replaced(s.queue, offset, data), q, 0, s.gaps[first].start)
    requires AgreeFrom(s.queue, q, s.gaps[last].end)
    requires s.gaps[first].start in q
    requires |q[s.gaps[first].start]| == Hi(s, offset + |data|, last) - s.gaps[first].start > 0
    ensures |Above(s, offset + |data|, last)| > 0
    ensures Chain(q, BlockStart(s, first), Above(s, offset + |data|, last)[0].start)
            <==> !Cuts(s, offset, data, first, last)
  {
    var end := offset + |data|;
    PathGoesOn(s, q, end, last);
    BlockPath(s, first);
    PathIffUncut(s, q, offset, data, first, last, Above(s, end, last)[0].start);
  }

  /** The path goes on from the stored bytes to `goal`, the start of the next gap. */
  ghost predicate GoesOn(s: Sorter, q: Queue, end: nat, last: nat, goal: nat)
    requires last < |s.gaps|
  {
    var hi := Hi(s, end, last);
    && Chain(q, hi, goal) && end <= goal
    && (hi < end ==> last + 1 < |s.gaps| && goal == s.gaps[last + 1].start)
    && (hi < end ==> (Chain(q, end, goal) <==> Chain(s.queue, end, goal)))
  }

  lemma {:induction false} PathGoesOn(s: Sorter, q: Queue, end: nat, last: nat)
    requires Inv(s) && Deliverable(s) && last < |s.gaps| && end < MAX_BYTE_COUNT
    requires AgreeFrom(s.queue, q, s.gaps[last].end)
    requires last + 1 < |s.gaps| ==> end < s.gaps[last + 1].start
    ensures |Above(s, end, last)| > 0 && GoesOn(s, q, end, last, Above(s, end, last)[0].start)
  {
    PathAfter(s, q, end, last);
  }

  lemma {:induction false} BlockPath(s: Sorter, first: nat)
    requires Deliverable(s) && first < |s.gaps|
    ensures Chain(s.queue, BlockStart(s, first), s.gaps[first].start)
  {
    PathsBefore(s, first);
  }

  /** The same from what is known about the paths in front of and behind the stored bytes. */
  lemma {:induction false} PathIffUncut(s: Sorter, q: Queue, offset: nat, data: Bytes, first: nat, last: nat, goal: nat)
    requires first <= last < |s.gaps| && !Shadowed(s, offset, data) && offset <= s.gaps[first].start
    requires Agree(Replaced(s.queue, offset, data), q, 0, s.gaps[first].start)
    requires Chain(s.queue, BlockStart(s, first), s.gaps[first].start) && s.gaps[first].start in q
    requires |q[s.gaps[first].start]| == Hi(s, offset + |data|, last) - s.gaps[first].start > 0
    requires GoesOn(s, q, offset + |data|, last, goal)
    ensures Chain(q, BlockStart(s, first), goal) <==> !Cuts(s, offset, data, first, last)
  {
    var hi := Hi(s, offset + |data|, last);
    ChainAcross(s.queue, q, BlockStart(s, first), s.gaps[first].start, hi, offset, data, goal);
  }

  lemma {:induction false} ChainAcross(q0: Queue, q: Queue, b: nat, lo: nat, hi: nat, offset: nat, data: Bytes,
                                       goal: nat)
    requires Chain(q0, b, lo) && offset <= lo < hi <= offset + |data| <= goal
    requires Agree(Replaced(q0, offset, data), q, 0, lo)
    requires lo in q && |q[lo]| == hi - lo && Chain(q, hi, goal)
    ensures Chain(q, b, goal) <==>
            !(offset in q0 && offset < lo && Chain(q0, b, offset) && !Chain(q, offset + |data|, goal))
  {
    if offset in q0 && offset < lo && Chain(q0, b, offset) {
      ChainVia(q0, q, b, offset, data, goal);
    } else {
      ChainToGap(q0, q, offset, data, b, lo);
      ChainConcat(q, b, lo, goal);
    }
  }

  lemma {:induction false} ChainVia(q0: Queue, q: Queue, b: nat, offset: nat, data: Bytes, goal: nat)
    requires Chain(q0, b, offset) && offset in q0 && |data| > 0 && offset + |data| <= goal
    requires Agree(q0[offset := data], q, 0, offset + 1)
    ensures Chain(q, b, goal) <==> Chain(q, offset + |data|, goal)
  {
    ChainAgree(q0, q, b, offset);
    ChainConcat(q, b, offset, goal);
  }

  lemma {:induction false} ChainToGap(q0: Queue, q: Queue, offset: nat, data: Bytes, b: nat, lo: nat)
    requires Agree(Replaced(q0, offset, data), q, 0, lo) && Chain(q0, b, lo)
    requires offset in q0 ==> !(offset < lo && Chain(q0, b, offset))
    ensures Chain(q, b, lo)
  {
    if offset in q0 {
      ChainSkip(q0, offset, data, b, lo);
    }
    ChainAgree(Replaced(q0, offset, data), q, b, lo);
  }

  lemma {:induction false} StoreAgrees(s: Sorter, offset: nat, data: Bytes, first: nat, last: nat)
    requires Separated(s.gaps) && |data| > 0 && Touches(s.gaps, offset, offset + |data|, first, last)
    requires |AfterStore(s, offset, data, first, last).gaps| <= MAX_SORTER_GAPS
    ensures var q := AfterStore(s, offset, data, first, last).queue;
            var lo, hi := Lo(s, offset, first), Hi(s, offset + |data|, last);
            && Agree(Replaced(s.queue, offset, data), q, 0, lo)
            && Agree(s.queue, q, 0, offset)
            && (offset < hi ==> AgreeFrom(s.queue, q, s.gaps[last].end))
            && lo in q && lo <= hi && |q[lo]| == hi - lo
  {
    StoresAgree(s.(queue := Replaced(s.queue, offset, data)), offset, data, first, last);
  }

  lemma {:induction false} StoreGaps(s: Sorter, offset: nat, data: Bytes, first: nat, last: nat, s': Sorter)
    requires |data| > 0 && Touches(s.gaps, offset, offset + |data|, first, last)
             && s' == AfterStore(s, offset, data, first, last)
    ensures s'.readPos == s.readPos
    ensures s'.gaps == s.gaps[..first]
            + Remaining(s.gaps, first, last, Lo(s, offset, first), Hi(s, offset + |data|, last)) + s.gaps[last + 1..]
  {
  }

  lemma {:induction false} StoreDelivers(s: Sorter, offset: nat, data: Bytes, first: nat, last: nat, s': Sorter)
    requires Inv(s) && Deliverable(s) && |data| > 0 && offset + |data| < MAX_BYTE_COUNT
    requires Touches(s.gaps, offset, offset + |data|, first, last) && s' == AfterStore(s, offset, data, first, last)
    requires first > 0 ==> s.gaps[first - 1].end < offset
    requires |s'.gaps| <= MAX_SORTER_GAPS && offset < Hi(s, offset + |data|, last)
    ensures |Above(s, offset + |data|, last)| > 0
    ensures Deliverable(s') <==> Chain(s'.queue, Begin(s, offset, first), Above(s, offset + |data|, last)[0].start)
  {
    StoreAround(s, offset, data, first, last, s'.queue);
    StoreGaps(s, offset, data, first, last, s');
    StoresPaths(s, s'.queue, s'.gaps, offset, offset + |data|, first, last);
  }

  lemma {:induction false} StoreAround(s: Sorter, offset: nat, data: Bytes, first: nat, last: nat, q: Queue)
    requires Separated(s.gaps) && |data| > 0 && Touches(s.gaps, offset, offset + |data|, first, last)
    requires |AfterStore(s, offset, data, first, last).gaps| <= MAX_SORTER_GAPS && offset < Hi(s, offset + |data|, last)
    requires q == AfterStore(s, offset, data, first, last).queue
    ensures Agree(s.queue, q, 0, offset) && AgreeFrom(s.queue, q, s.gaps[last].end)
  {
    StoreAgrees(s, offset, data, first, last);
  }

  /** A frame that starts inside a gap. */
  lemma {:induction false} StoreInGap(s: Sorter, offset: nat, data: Bytes, first: nat, last: nat, q: Queue)
    requires Inv(s) && Deliverable(s) && |data| > 0 && offset + |data| < MAX_BYTE_COUNT
    requires Touches(s.gaps, offset, offset + |data|, first, last)
             && q == AfterStore(s, offset, data, first, last).queue
    requires |AfterStore(s, offset, data, first, last).gaps| <= MAX_SORTER_GAPS
    requires s.gaps[first].start < offset < Hi(s, offset + |data|, last)
    ensures |Above(s, offset + |data|, last)| > 0 && Chain(q, offset, Above(s, offset + |data|, last)[0].start)
  {
    StoreAgrees(s, offset, data, first, last);
    PathFromOffset(s, q, offset, offset + |data|, first, last);
  }

  lemma {:induction false} AgreesAcross(s: Sorter, offset: nat, data: Bytes, first: nat, last: nat, q: Queue, lo: nat)
    requires Separated(s.gaps) && |data| > 0 && Touches(s.gaps, offset, offset + |data|, first, last)
    requires q == AfterStore(s, offset, data, first, last).queue
             && |AfterStore(s, offset, data, first, last).gaps| <= MAX_SORTER_GAPS
    requires offset <= lo == s.gaps[first].start
    ensures Agree(Replaced(s.queue, offset, data), q, 0, lo) && AgreeFrom(s.queue, q, s.gaps[last].end)
    ensures lo in q && |q[lo]| == Hi(s, offset + |data|, last) - lo > 0
  {
    assert first < last ==> Before(s.gaps, first, last);
    assert Lo(s, offset, first) == lo < Hi(s, offset + |data|, last);
    StoreAgrees(s, offset, data, first, last);
  }

  /** A frame that starts at or before the start of a gap. */
  lemma {:induction false} StoreAcrossGap(s: Sorter, offset: nat, data: Bytes, first: nat, last: nat, q: Queue)
    requires Inv(s) && Deliverable(s) && !Shadowed(s, offset, data) && offset + |data| < MAX_BYTE_COUNT
    requires Touches(s.gaps, offset, offset + |data|, first, last)
             && q == AfterStore(s, offset, data, first, last).queue
    requires |AfterStore(s, offset, data, first, last).gaps| <= MAX_SORTER_GAPS && offset <= s.gaps[first].start
    ensures |Above(s, offset + |data|, last)| > 0
    ensures Chain(q, BlockStart(s, first), Above(s, offset + |data|, last)[0].start)
            <==> !Cuts(s, offset, data, first, last)
  {
    AgreesAcross(s, offset, data, first, last, q, s.gaps[first].start);
    PathAcrossGap(s, q, offset, data, first, last);
  }

  /** A frame that starts where a gap ends and stops before the next one is queued as an empty entry. */
  lemma {:induction false} StoreLosesPath(s: Sorter, offset: nat, data: Bytes, first: nat, last: nat)
    requires Inv(s) && |data| > 0 && offset + |data| < MAX_BYTE_COUNT
    requires Touches(s.gaps, offset, offset + |data|, first, last)
    requires |AfterStore(s, offset, data, first, last).gaps| <= MAX_SORTER_GAPS
    requires offset == Hi(s, offset + |data|, last)
    ensures !Deliverable(AfterStore(s, offset, data, first, last))
  {
    var s' := AfterStore(s, offset, data, first, last);
    assert first == last && offset == s.gaps[first].end;
    assert s'.gaps == s.gaps;
    StoreAgrees(s, offset, data, first, last);
    EndBounded(s.gaps, first);
    if Deliverable(s') {
      PathsAround(s', first + 1, first + 1);
    }
  }

  /** A frame with no missing byte: only the replacement can matter. */
  lemma {:induction false} ReplaceKeepsPath(s: Sorter, offset: nat, data: Bytes, first: nat)
    requires Inv(s) && Deliverable(s) && Replaces(s, offset, data)
    requires first < |s.gaps| && offset + |data| <= s.gaps[first].start
    requires first > 0 ==> s.gaps[first - 1].end < offset
    ensures Deliverable(s.(queue := s.queue[offset := data]))
            <==> !(OnPath(s, first, offset) && !Chain(s.queue, offset + |data|, s.gaps[first].start))
  {
    var q := s.queue[offset := data];
    PathsAround(s, first, first);
    ReplacePaths(s, q, offset, first);
    ChainReplace(s.queue, BlockStart(s, first), offset, data, s.gaps[first].start);
  }

  lemma {:induction false} ReplacePaths(s: Sorter, q: Queue, offset: nat, first: nat)
    requires Inv(s) && Deliverable(s) && first < |s.gaps|
    requires first > 0 ==> s.gaps[first - 1].end < offset
    requires Agree(s.queue, q, 0, offset) && AgreeFrom(s.queue, q, s.gaps[first].end)
    ensures Paths(q, s.readPos, s.gaps) <==> Chain(q, BlockStart(s, first), s.gaps[first].start)
  {
    PathsAround(s, first, first);
    PathsBelow(s, q, offset, first);
    PathsAbove(s, q, first);
    PathsSplit(q, s.readPos, s.gaps, first);
  }

  /** Paths through all gaps, told at one of them. */
  lemma {:induction false} PathsSplit(q: Queue, from: nat, gaps: seq<Interval>, i: nat)
    requires i < |gaps|
    ensures Paths(q, from, gaps) <==>
            && Paths(q, from, gaps[..i])
            && Chain(q, if i == 0 then from else gaps[i - 1].end, gaps[i].start)
            && Paths(q, gaps[i].end, gaps[i + 1..])
  {
    Seqs.SplitAt(gaps, i);
    PathsConcat(q, from, gaps[..i], gaps[i..]);
  }

  lemma {:induction false} ChainReplace(q0: Queue, b: nat, offset: nat, data: Bytes, goal: nat)
    requires Chain(q0, b, goal) && offset in q0 && |data| > 0 && offset + |data| <= goal
    ensures Chain(q0[offset := data], b, goal)
            <==> !(Chain(q0, b, offset) && !Chain(q0, offset + |data|, goal))
  {
    var q := q0[offset := data];
    if Chain(q0, b, offset) {
      ChainVia(q0, q, b, offset, data, goal);
      ChainAgree(q0, q, offset + |data|, goal);
    } else {
      ChainSkip(q0, offset, data, b, goal);
    }
  }

  /** Which block a queued offset on a path lies in. */
  lemma {:induction false} BlockOfOffset(s: Sorter, offset: nat, i: nat, first: nat)
    requires WellFormed(s.gaps) && OnPath(s, i, offset)
    requires first < |s.gaps| && offset <= s.gaps[first].end
    requires first > 0 ==> s.gaps[first - 1].end < offset
    ensures i == first || (i == first + 1 && offset == s.gaps[first].end)
  {
    ChainOrder(s.queue, BlockStart(s, i), offset);
    assert i < first - 1 ==> Before(s.gaps, i, first - 1);
    assert i > first + 1 ==> Before(s.gaps, first, i - 1);
    assert i == first + 1 ==> Before(s.gaps, first, i);
  }

  /** Which block the end of a frame lies in. */
  lemma {:induction false} BlockOfEnd(s: Sorter, end: nat, m: nat, last: nat)
    requires WellFormed(s.gaps) && Inside(s, m, end) && last < |s.gaps| && s.gaps[last].start <= end
    requires last + 1 < |s.gaps| ==> end < s.gaps[last + 1].start
    ensures m == last + 1 && s.gaps[last].end < end
  {
    assert m < last ==> Before(s.gaps, m, last);
    assert m > last + 2 ==> Before(s.gaps, last + 1, m - 1);
    EndBounded(s.gaps, last);
  }

  /** A stalling frame that is stored across the gaps first..last cuts the path or is queued empty. */
  lemma {:induction false} StallsAtStore(s: Sorter, offset: nat, data: Bytes, first: nat, last: nat, i: nat, m: nat)
    requires WellFormed(s.gaps) && Replaces(s, offset, data) && StallsAt(s, offset, data, i, m)
    requires Touches(s.gaps, offset, offset + |data|, first, last)
    requires first > 0 ==> s.gaps[first - 1].end < offset
    ensures offset < Hi(s, offset + |data|, last) ==>
              offset <= s.gaps[first].start && Cuts(s, offset, data, first, last)
  {
    BlockOfOffset(s, offset, i, first);
    BlockOfEnd(s, offset + |data|, m, last);
  }

  /** A frame stored across the gaps first..last stalls if it cuts the path or is queued empty. */
  lemma {:induction false} StoreStalls(s: Sorter, offset: nat, data: Bytes, first: nat, last: nat)
    requires Inv(s) && Deliverable(s) && !Shadowed(s, offset, data) && offset + |data| < MAX_BYTE_COUNT
    requires Touches(s.gaps, offset, offset + |data|, first, last)
    requires first > 0 ==> s.gaps[first - 1].end < offset
    requires offset < Hi(s, offset + |data|, last) ==>
               offset <= s.gaps[first].start && Cuts(s, offset, data, first, last)
    ensures Stalls(s, offset, data)
  {
    var end := offset + |data|;
    EndBounded(s.gaps, first);
    if offset < Hi(s, end, last) {
      assert StallsAt(s, offset, data, first, last + 1);
    } else {
      PathsAround(s, first + 1, first + 1);
      assert StallsAt(s, offset, data, first + 1, first + 1);
    }
  }

  /** Stalls, said through the gaps the frame touches: a frame stored across them. */
  lemma {:induction false} StallsOfStore(s: Sorter, offset: nat, data: Bytes, first: nat, last: nat)
    requires Inv(s) && Deliverable(s) && !Shadowed(s, offset, data) && offset + |data| < MAX_BYTE_COUNT
    requires Touches(s.gaps, offset, offset + |data|, first, last)
    requires first > 0 ==> s.gaps[first - 1].end < offset
    ensures Stalls(s, offset, data) <==>
            (offset < Hi(s, offset + |data|, last) ==>
               offset <= s.gaps[first].start && Cuts(s, offset, data, first, last))
  {
    if Stalls(s, offset, data) {
      var i: nat, m: nat :| StallsAt(s, offset, data, i, m);
      StallsAtStore(s, offset, data, first, last, i, m);
    } else if offset < Hi(s, offset + |data|, last) ==>
                offset <= s.gaps[first].start && Cuts(s, offset, data, first, last) {
      StoreStalls(s, offset, data, first, last);
    }
  }

  /** Stalls for a frame that only overlaps received bytes. */
  lemma {:induction false} StallsOfReplace(s: Sorter, offset: nat, data: Bytes, first: nat)
    requires WellFormed(s.gaps) && Replaces(s, offset, data)
    requires first < |s.gaps| && offset + |data| <= s.gaps[first].start
    requires first > 0 ==> s.gaps[first - 1].end < offset
    ensures Stalls(s, offset, data) <==>
            OnPath(s, first, offset) && !Chain(s.queue, offset + |data|, s.gaps[first].start)
  {
    var end := offset + |data|;
    EndBounded(s.gaps, first);
    if Stalls(s, offset, data) {
      var i: nat, m: nat :| StallsAt(s, offset, data, i, m);
      BlockOfOffset(s, offset, i, first);
      if first != m {
        NotInside(s, end, m, first);
      }
    }
    if OnPath(s, first, offset) && !Chain(s.queue, end, s.gaps[first].start) {
      ChainOrder(s.queue, BlockStart(s, first), offset);
      assert StallsAt(s, offset, data, first, first);
    }
  }

  lemma {:induction false} NotInside(s: Sorter, end: nat, m: nat, first: nat)
    requires WellFormed(s.gaps) && first < |s.gaps| && m != first && end <= s.gaps[first].start
    requires first > 0 ==> s.gaps[first - 1].end < end
    ensures !Inside(s, m, end)
  {
    if m < |s.gaps| {
      assert first + 1 < m ==> Before(s.gaps, first, m - 1);
      assert m + 1 < first ==> Before(s.gaps, m, first - 1);
    }
  }

  lemma {:induction false} StoreDelivery(s: Sorter, offset: nat, data: Bytes, first: nat, last: nat, s': Sorter)
    requires Inv(s) && Deliverable(s) && !Shadowed(s, offset, data) && offset + |data| < MAX_BYTE_COUNT
    requires Touches(s.gaps, offset, offset + |data|, first, last) && s' == AfterStore(s, offset, data, first, last)
    requires (first > 0 ==> s.gaps[first - 1].end < offset) && |s'.gaps| <= MAX_SORTER_GAPS
    ensures Deliverable(s') <==> !Stalls(s, offset, data)
  {
    StallsOfStore(s, offset, data, first, last);
    if offset == Hi(s, offset + |data|, last) {
      StoreLosesPath(s, offset, data, first, last);
    } else {
      StoreDelivers(s, offset, data, first, last, s');
      if s.gaps[first].start < offset {
        StoreInGap(s, offset, data, first, last, s'.queue);
      } else {
        StoreAcrossGap(s, offset, data, first, last, s'.queue);
      }
    }
  }

  /** The exact condition: an error-free push keeps everything deliverable if and only if it does not stall. */
  lemma {:induction false} PushDelivery(s: Sorter, offset: nat, data: Bytes)
    requires Inv(s) && Deliverable(s) && offset + |data| < MAX_BYTE_COUNT
    requires Push(s, offset, data).0 != TooManyGaps
    ensures Deliverable(Push(s, offset, data).1) <==> !Stalls(s, offset, data)
  {
    if !Shadowed(s, offset, data) {
      var end := offset + |data|;
      FirstTouchingExists(s.gaps, offset);
      var first := FirstTouching(s.gaps, offset, 0);
      if first > 0 {
        BeforeFirst(s.gaps, offset, 0, first - 1);
      }
      if s.gaps[first].start < end {
        var last := LastTouching(s.gaps, end, first);
        PushStores(s, offset, data, first, last);
        StoreDelivery(s, offset, data, first, last, AfterStore(s, offset, data, first, last));
      } else {
        PushOnlyReplaces(s, offset, data, first);
        if offset in s.queue {
          StallsOfReplace(s, offset, data, first);
          ReplaceKeepsPath(s, offset, data, first);
        }
      }
    }
  }

  /** Entries lie below the first gap once the reader reaches them. */
  lemma {:induction false} EntryAtReadPos(s: Sorter)
    requires Inv(s) && s.readPos in s.queue
    ensures s.readPos < s.gaps[0].start && s.readPos + |s.queue[s.readPos]| <= s.gaps[0].start
  {
    ReadPosBound(s);
    assert Missing(s.gaps, s.gaps[0].start);
  }

  lemma {:induction false} PopDelivery(s: Sorter)
    requires Inv(s) && Deliverable(s)
    ensures Deliverable(Pop(s))
  {
    if s.readPos in s.queue {
      EntryAtReadPos(s);
      var s', n := Pop(s), |s.gaps| - 1;
      assert n > 0 ==> Before(s.gaps, 0, n);
      PathsAgree(s.queue, s'.queue, s'.readPos, s.gaps, s.gaps[n].start);
    }
  }

  /** Popping until nothing is returned. */
  function Drain(s: Sorter): Sorter
    decreases |s.queue|
  {
    if s.readPos in s.queue then
      assert |Pop(s).queue.Keys| == |s.queue.Keys - {s.readPos}|;
      Drain(Pop(s))
    else s
  }

  /** The reader gets to the first gap exactly if the path from the read position is intact. */
  lemma {:induction false} DrainReaches(s: Sorter)
    requires Inv(s)
    ensures Drain(s).readPos == s.gaps[0].start <==> Chain(s.queue, s.readPos, s.gaps[0].start)
    decreases |s.queue|
  {
    if s.readPos in s.queue {
      EntryAtReadPos(s);
      var s' := Pop(s);
      PopShrinks(s, s');
      if |s.queue[s.readPos]| > 0 {
        PopInv(s);
        DrainReaches(s');
        ChainAgree(s.queue, s'.queue, s'.readPos, s.gaps[0].start);
      }
    }
  }

  lemma {:induction false} PopShrinks(s: Sorter, s': Sorter)
    requires s.readPos in s.queue && s' == Pop(s)
    ensures |s'.queue| < |s.queue|
  {
    assert s'.queue.Keys == s.queue.Keys - {s.readPos};
    assert |s.queue.Keys - {s.readPos}| == |s.queue.Keys| - 1;
  }

  /** No push of the run errors or stalls. */
  ghost predicate Smooth(ops: seq<Op>)
    requires Bounded(ops)
  {
    |ops| == 0 ||
    (var s, op := Run(ops[..|ops| - 1]), ops[|ops| - 1];
     && Smooth(ops[..|ops| - 1])
     && (op.PushOp? ==> Push(s, op.offset, op.data).0 != TooManyGaps && !Stalls(s, op.offset, op.data)))
  }

  lemma {:induction false} SmoothDeliverable(ops: seq<Op>)
    requires Bounded(ops) && Smooth(ops)
    ensures Deliverable(Run(ops))
  {
    if |ops| == 0 {
      assert EMPTY.gaps[1..] == [];
    } else {
      var n := |ops| - 1;
      SmoothDeliverable(ops[..n]);
      if ops[n].PushOp? {
        PushDelivery(Run(ops[..n]), ops[n].offset, ops[n].data);
      } else {
        PopDelivery(Run(ops[..n]));
      }
    }
  }

  /** Delivery: once every byte below n has been pushed, popping until nil reads at least up to n. */
  lemma {:induction false} Delivery(ops: seq<Op>, n: nat)
    requires Bounded(ops) && Smooth(ops) && n <= MAX_BYTE_COUNT
    requires forall x: nat | x < n :: Pushed(ops, x)
    ensures Drain(Run(ops)).readPos >= n
  {
    var s := Run(ops);
    SmoothDeliverable(ops);
    DrainReaches(s);
    EndBounded(s.gaps, 0);
    assert Missing(s.gaps, s.gaps[0].start);
    GapsAreComplement(ops, s.gaps[0].start);
  }

  lemma {:induction false} FirstTouchingIs(gaps: seq<Interval>, start: nat, i: nat, n: nat)
    requires i <= n < |gaps| && start <= gaps[n].end
    requires forall j | i <= j < n :: gaps[j].end < start
    ensures FirstTouching(gaps, start, i) == n
    decreases n - i
  {
    if i < n {
      FirstTouchingIs(gaps, start, i + 1, n);
    }
  }

  /** The last gap starts at `offset`. */
  ghost predicate Continues(s: Sorter, offset: nat, data: Bytes, n: nat) {
    && |s.gaps| == n + 1 < MAX_SORTER_GAPS && s.gaps[n] == Interval(offset, MAX_BYTE_COUNT)
    && |data| > 0 && offset + |data| < MAX_BYTE_COUNT
  }

  lemma {:induction false} SpliceInOrder(gaps: seq<Interval>, offset: nat, end: nat, n: nat)
    requires |gaps| == n + 1 && gaps[n] == Interval(offset, MAX_BYTE_COUNT) && offset < end < MAX_BYTE_COUNT
    ensures gaps[..n] + Remaining(gaps, n, n, offset, end) + gaps[n + 1..]
            == gaps[..n] + [Interval(end, MAX_BYTE_COUNT)]
  {
    assert Remaining(gaps, n, n, offset, end) == [Interval(end, MAX_BYTE_COUNT)];
    Seqs.NothingBehind(gaps, gaps[..n] + [Interval(end, MAX_BYTE_COUNT)]);
  }

  lemma {:induction false} GapsInOrder(s: Sorter, offset: nat, data: Bytes, n: nat)
    requires Continues(s, offset, data, n) && Touches(s.gaps, offset, offset + |data|, n, n)
    ensures Stores(s, offset, data, n, n).gaps == s.gaps[..n] + [Interval(offset + |data|, MAX_BYTE_COUNT)]
  {
    var lo, hi := Max(offset, s.gaps[n].start), Min(offset + |data|, s.gaps[n].end);
    assert lo == offset && hi == offset + |data|;
    SpliceInOrder(s.gaps, lo, hi, n);
  }

  lemma {:induction false} QueueInOrder(s: Sorter, offset: nat, data: Bytes, n: nat)
    requires Continues(s, offset, data, n) && Touches(s.gaps, offset, offset + |data|, n, n)
    requires |Stores(s, offset, data, n, n).gaps| <= MAX_SORTER_GAPS
    ensures Stores(s, offset, data, n, n).queue == s.queue[offset := data]
  {
    var lo, hi := Max(offset, s.gaps[n].start), Min(offset + |data|, s.gaps[n].end);
    assert lo - offset == 0 && hi - offset == |data|;
    Seqs.Whole(data);
    assert data[lo - offset..hi - offset] == data;
    assert Stores(s, offset, data, n, n).queue == s.queue[lo := data];
  }

  lemma {:induction false} LastGapTouched(gaps: seq<Interval>, offset: nat, end: nat, n: nat)
    requires WellFormed(gaps) && n == |gaps| - 1 && gaps[n].start == offset
    ensures FirstTouching(gaps, offset, 0) == n && LastTouching(gaps, end, n) == n
  {
    forall j | 0 <= j < n ensures gaps[j].end < offset {
      assert Before(gaps, j, n);
    }
    FirstTouchingIs(gaps, offset, 0, n);
  }

  /** A frame that continues the received bytes in front of the last gap. */
  lemma {:induction false} PushInOrder(s: Sorter, offset: nat, data: Bytes, n: nat)
    requires WellFormed(s.gaps) && Continues(s, offset, data, n) && offset !in s.queue
    ensures var rest := Interval(offset + |data|, MAX_BYTE_COUNT);
            Push(s, offset, data).1 == Sorter(s.queue[offset := data], s.readPos, s.gaps[..n] + [rest])
  {
    LastGapTouched(s.gaps, offset, offset + |data|, n);
    PushStores(s, offset, data, n, n);
    GapsInOrder(s, offset, data, n);
    QueueInOrder(s, offset, data, n);
  }

  const HOLES: seq<Interval> := [Interval(0, 5), Interval(10, MAX_BYTE_COUNT)]

  lemma {:induction false} RunPush(ops: seq<Op>, offset: nat, data: Bytes)
    requires Bounded(ops) && offset + |data| < MAX_BYTE_COUNT
    ensures Bounded(ops + [PushOp(offset, data)])
    ensures Run(ops + [PushOp(offset, data)]) == Push(Run(ops), offset, data).1
  {
    var all := ops + [PushOp(offset, data)];
    assert all[..|all| - 1] == ops;
  }

  /** A run whose frames are contiguous from 5 on, followed by the next frame in order. */
  lemma {:induction false} RunInOrder(ops: seq<Op>, q: Queue, offset: nat, data: Bytes)
    requires Bounded(ops) && 5 < offset && offset !in q && |data| > 0 && offset + |data| < MAX_BYTE_COUNT
    requires Run(ops) == Sorter(q, 0, [Interval(0, 5), Interval(offset, MAX_BYTE_COUNT)])
    ensures Bounded(ops + [PushOp(offset, data)])
    ensures Run(ops + [PushOp(offset, data)])
            == Sorter(q[offset := data], 0, [Interval(0, 5), Interval(offset + |data|, MAX_BYTE_COUNT)])
  {
    RunPush(ops, offset, data);
    var gaps := [Interval(0, 5), Interval(offset, MAX_BYTE_COUNT)];
    PushInOrder(Run(ops), offset, data, 1);
    assert gaps[..1] == [Interval(0, 5)];
  }

  /** Three adjacent frames [5,6), [6,8), [8,10) behind a gap. */
  lemma {:induction false} ThreeFrames(a: Bytes, b: Bytes, c: Bytes)
    requires |a| == 1 && |b| == 2 && |c| == 2
    ensures Run([PushOp(5, a), PushOp(6, b), PushOp(8, c)]) == Sorter(map[5 := a, 6 := b, 8 := c], 0, HOLES)
  {
    var ops1 := [PushOp(5, a)];
    RunPush([], 5, a);
    FirstFrame(a);
    assert [] + ops1 == ops1;
    RunInOrder(ops1, map[5 := a], 6, b);
    var ops2 := ops1 + [PushOp(6, b)];
    assert map[5 := a][6 := b] == map[5 := a, 6 := b];
    RunInOrder(ops2, map[5 := a, 6 := b], 8, c);
    assert ops2 + [PushOp(8, c)] == [PushOp(5, a), PushOp(6, b), PushOp(8, c)];
  }

  lemma {:induction false} FirstFrame(a: Bytes)
    requires |a| == 1
    ensures Push(EMPTY, 5, a).1 == Sorter(map[5 := a], 0, [Interval(0, 5), Interval(6, MAX_BYTE_COUNT)])
  {
    PushStores(EMPTY, 5, a, 0, 0);
    assert a[0..1] == a;
  }

  /** Pushing [5,8) over the three frames leaves an empty entry at 5. */
  lemma {:induction false} FourthFrame(a: Bytes, b: Bytes, c: Bytes, d: Bytes)
    requires |a| == 1 && |b| == 2 && |c| == 2 && |d| == 3
    ensures var s := Sorter(map[5 := a, 6 := b, 8 := c], 0, HOLES);
            && WellFormed(s.gaps)
            && Push(s, 5, d).1 == Sorter(map[5 := [], 6 := b, 8 := c], 0, HOLES)
  {
    var s := Sorter(map[5 := a, 6 := b, 8 := c], 0, HOLES);
    PushStores(s, 5, d, 0, 0);
    assert AfterStore(s, 5, d, 0, 0).gaps == HOLES;
  }

  /** It is one of the pushes that stall. */
  lemma {:induction false} FourthFrameStalls(a: Bytes, b: Bytes, c: Bytes, d: Bytes)
    requires |a| == 1 && |b| == 2 && |c| == 2 && |d| == 3
    ensures Stalls(Sorter(map[5 := a, 6 := b, 8 := c], 0, HOLES), 5, d)
  {
    assert StallsAt(Sorter(map[5 := a, 6 := b, 8 := c], 0, HOLES), 5, d, 1, 1);
  }

  lemma {:induction false} FifthFrame(b: Bytes, c: Bytes, e: Bytes)
    requires |e| == 5
    ensures var s := Sorter(map[5 := [], 6 := b, 8 := c], 0, HOLES);
            && WellFormed(s.gaps)
            && Push(s, 0, e).1 == Sorter(map[0 := e, 5 := [], 6 := b, 8 := c], 0, [Interval(10, MAX_BYTE_COUNT)])
  {
    var s := Sorter(map[5 := [], 6 := b, 8 := c], 0, HOLES);
    HolesTouched();
    PushStores(s, 0, e, 0, 0);
    FirstGapFilled(s, e);
    assert HOLES[1..] == [Interval(10, MAX_BYTE_COUNT)];
    assert s.queue[0 := e] == map[0 := e, 5 := [], 6 := b, 8 := c];
  }

  lemma {:induction false} HolesTouched()
    ensures WellFormed(HOLES) && FirstTouching(HOLES, 0, 0) == 0 && LastTouching(HOLES, 5, 0) == 0
  {
  }

  lemma {:induction false} FirstGapFilled(s: Sorter, data: Bytes)
    requires s.gaps == HOLES && |data| == 5 && 0 !in s.queue
    ensures AfterStore(s, 0, data, 0, 0) == Sorter(s.queue[0 := data], s.readPos, HOLES[1..])
  {
    assert Remaining(HOLES, 0, 0, 0, 5) == [];
    assert HOLES[..0] + [] + HOLES[1..] == HOLES[1..];
    Seqs.Whole(data);
  }

  lemma {:induction false} FourFrames(ops: seq<Op>, a: Bytes, b: Bytes, c: Bytes, d: Bytes)
    requires |a| == 1 && |b| == 2 && |c| == 2 && |d| == 3
    requires Bounded(ops) && Run(ops) == Sorter(map[5 := a, 6 := b, 8 := c], 0, HOLES)
    ensures Bounded(ops + [PushOp(5, d)]) && Run(ops + [PushOp(5, d)]) == Sorter(map[5 := [], 6 := b, 8 := c], 0, HOLES)
  {
    RunPush(ops, 5, d);
    FourthFrame(a, b, c, d);
  }

  lemma {:induction false} FiveFrames(ops: seq<Op>, b: Bytes, c: Bytes, e: Bytes)
    requires Bounded(ops) && Run(ops) == Sorter(map[5 := [], 6 := b, 8 := c], 0, HOLES) && |e| == 5
    ensures Bounded(ops + [PushOp(0, e)])
    ensures Run(ops + [PushOp(0, e)]) == Sorter(map[0 := e, 5 := [], 6 := b, 8 := c], 0, [Interval(10, MAX_BYTE_COUNT)])
  {
    RunPush(ops, 0, e);
    FifthFrame(b, c, e);
  }

  /** The five frames [5,6), [6,8), [8,10), the unsplit [5,8), then [0,5). */
  function SplitPushes(a: Bytes, b: Bytes, c: Bytes, d: Bytes, e: Bytes): seq<Op> {
    [PushOp(5, a), PushOp(6, b), PushOp(8, c)] + [PushOp(5, d)] + [PushOp(0, e)]
  }

  lemma {:induction false} AfterSplitPushes(a: Bytes, b: Bytes, c: Bytes, d: Bytes, e: Bytes)
    requires |a| == 1 && |b| == 2 && |c| == 2 && |d| == 3 && |e| == 5
    ensures Bounded(SplitPushes(a, b, c, d, e))
    ensures Run(SplitPushes(a, b, c, d, e))
            == Sorter(map[0 := e, 5 := [], 6 := b, 8 := c], 0, [Interval(10, MAX_BYTE_COUNT)])
  {
    ThreeFrames(a, b, c);
    LastTwoFrames([PushOp(5, a), PushOp(6, b), PushOp(8, c)], a, b, c, d, e, SplitPushes(a, b, c, d, e));
  }

  lemma {:induction false} LastTwoFrames(ops: seq<Op>, a: Bytes, b: Bytes, c: Bytes, d: Bytes, e: Bytes, all: seq<Op>)
    requires |a| == 1 && |b| == 2 && |c| == 2 && |d| == 3 && |e| == 5 && all == ops + [PushOp(5, d)] + [PushOp(0, e)]
    requires Bounded(ops) && Run(ops) == Sorter(map[5 := a, 6 := b, 8 := c], 0, HOLES)
    ensures Bounded(all)
    ensures Run(all) == Sorter(map[0 := e, 5 := [], 6 := b, 8 := c], 0, [Interval(10, MAX_BYTE_COUNT)])
  {
    FourFrames(ops, a, b, c, d);
    FiveFrames(ops + [PushOp(5, d)], b, c, e);
  }

  /** Every byte below 10 has been pushed, yet the reader is stuck at 5. */
  lemma {:induction false} SplitFramesCanStall(a: Bytes, b: Bytes, c: Bytes, d: Bytes, e: Bytes)
    requires |a| == 1 && |b| == 2 && |c| == 2 && |d| == 3 && |e| == 5
    ensures var ops := SplitPushes(a, b, c, d, e);
            Run(ops).gaps == [Interval(10, MAX_BYTE_COUNT)] && Drain(Run(ops)).readPos == 5
  {
    AfterSplitPushes(a, b, c, d, e);
    StuckAtFive(Run(SplitPushes(a, b, c, d, e)));
  }

  lemma {:induction false} StuckAtFive(s: Sorter)
    requires s.readPos == 0 && 0 in s.queue && |s.queue[0]| == 5 && 5 in s.queue && s.queue[5] == []
    ensures Drain(s).readPos == 5
  {
    var s1 := Pop(s);
    assert s1.readPos == 5 && 5 in s1.queue && s1.queue[5] == [];
    assert Drain(s) == Drain(s1) && Drain(s1) == Drain(Pop(s1)) && Drain(Pop(s1)) == Pop(s1);
  }
}
