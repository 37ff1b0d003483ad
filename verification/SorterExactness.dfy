/** Gap exactness of the frame sorter over all runs of pushes and pops. */
module SorterExactness {
  // The gap list stays well formed and is exactly the complement of the union of all pushed ranges.

  import opened Protocol
  import opened Gaps
  import opened FrameSorter
  import Seqs

  /** No offset of [a, b) is missing. */
  ghost predicate Received(gaps: seq<Interval>, a: int, b: int) {
    forall x | a <= x < b :: !Missing(gaps, x)
  }

  /** Well-formed gaps; everything queued and everything read has been received. */
  ghost predicate Inv(s: Sorter) {
    && WellFormed(s.gaps)
    && (forall k | k in s.queue :: Received(s.gaps, k, k + |s.queue[k]|) && !Missing(s.gaps, k))
    && Received(s.gaps, 0, s.readPos)
  }

  /** `after` misses what `before` misses, except the offsets [s, e). */
  ghost predicate Minus(before: seq<Interval>, after: seq<Interval>, s: int, e: int) {
    forall x :: Missing(after, x) <==> Missing(before, x) && !(s <= x < e)
  }

  lemma {:induction false} MissingMiddle(gaps: seq<Interval>, s: nat, e: nat, first: nat, last: nat, x: int)
    requires s < e && Separated(gaps) && Touches(gaps, s, e, first, last)
    ensures Missing(Remaining(gaps, first, last, Max(s, gaps[first].start), Min(e, gaps[last].end)), x)
            <==> Missing(gaps[first..last + 1], x) && !(s <= x < e)
  {
    var mid := gaps[first..last + 1];
    var rem := Remaining(gaps, first, last, Max(s, gaps[first].start), Min(e, gaps[last].end));
    if Missing(mid, x) && !(s <= x < e) {
      var i :| 0 <= i < |mid| && mid[i].start <= x < mid[i].end;
      assert i > 0 ==> Before(gaps, first, first + i);
      assert first + i < last ==> Before(gaps, first + i, last);
      assert x < s ==> rem[0].start <= x < rem[0].end;
      assert x >= e ==> rem[|rem| - 1].start <= x < rem[|rem| - 1].end;
    }
    if Missing(rem, x) {
      assert mid[0].start <= x < mid[0].end || mid[last - first].start <= x < mid[last - first].end;
    }
  }

  lemma {:induction false} MissingBehind(gaps: seq<Interval>, e: nat, last: nat, x: int)
    requires Separated(gaps) && last < |gaps| && (last + 1 < |gaps| ==> e < gaps[last + 1].start)
    requires Missing(gaps[last + 1..], x)
    ensures e < x
  {
    var post := gaps[last + 1..];
    var i :| 0 <= i < |post| && post[i].start <= x < post[i].end;
    assert post[i] == gaps[last + 1 + i];
    assert i > 0 ==> Before(gaps, last + 1, last + 1 + i);
  }

  lemma {:induction false} SpliceMissing(gaps: seq<Interval>, s: nat, e: nat, first: nat, last: nat, x: int)
    requires s < e && Separated(gaps) && Touches(gaps, s, e, first, last)
    requires forall j | 0 <= j < first :: gaps[j].end < s
    ensures var rem := Remaining(gaps, first, last, Max(s, gaps[first].start), Min(e, gaps[last].end));
            Missing(gaps[..first] + rem + gaps[last + 1..], x) <==> Missing(gaps, x) && !(s <= x < e)
  {
    var rem := Remaining(gaps, first, last, Max(s, gaps[first].start), Min(e, gaps[last].end));
    var pre, mid, post := gaps[..first], gaps[first..last + 1], gaps[last + 1..];
    assert Missing(gaps, x) <==> Missing(pre, x) || Missing(mid, x) || Missing(post, x) by {
      Seqs.Split3(gaps, first, last + 1);
      MissingConcat3(pre, mid, post, x);
    }
    MissingConcat3(pre, rem, post, x);
    MissingMiddle(gaps, s, e, first, last, x);
    assert Missing(pre, x) ==> x < s;
    if Missing(post, x) {
      MissingBehind(gaps, e, last, x);
    }
  }

  /** The state after storing a frame, the replacement of lines 48-58 included. */
  function AfterStore(s: Sorter, offset: nat, data: Bytes, first: nat, last: nat): Sorter
    requires |data| > 0 && Touches(s.gaps, offset, offset + |data|, first, last)
  {
    Stores(s.(queue := Replaced(s.queue, offset, data)), offset, data, first, last)
  }

  lemma {:induction false} PushStores(s: Sorter, offset: nat, data: Bytes, first: nat, last: nat)
    requires WellFormed(s.gaps) && !Shadowed(s, offset, data) && offset + |data| < MAX_BYTE_COUNT
    requires first == FirstTouching(s.gaps, offset, 0) < |s.gaps| && s.gaps[first].start < offset + |data|
    requires last == LastTouching(s.gaps, offset + |data|, first)
    ensures Touches(s.gaps, offset, offset + |data|, first, last)
    ensures Push(s, offset, data).1 == AfterStore(s, offset, data, first, last)
    ensures Push(s, offset, data).0 != TooManyGaps ==>
              |AfterStore(s, offset, data, first, last).gaps| <= MAX_SORTER_GAPS
  {
    TouchesFirstLast(s.gaps, offset, offset + |data|);
  }

  lemma {:induction false} PushOnlyReplaces(s: Sorter, offset: nat, data: Bytes, first: nat)
    requires WellFormed(s.gaps) && !Shadowed(s, offset, data)
    requires first == FirstTouching(s.gaps, offset, 0) < |s.gaps| && offset + |data| <= s.gaps[first].start
    ensures Push(s, offset, data).1 == s.(queue := Replaced(s.queue, offset, data))
  {
  }

  /** A frame that overlaps missing bytes is cut out of the gaps it touches. */
  lemma {:induction false} PushSplices(s: Sorter, offset: nat, data: Bytes, first: nat, last: nat)
    requires WellFormed(s.gaps) && offset + |data| < MAX_BYTE_COUNT && !Shadowed(s, offset, data)
    requires first == FirstTouching(s.gaps, offset, 0) < |s.gaps| && s.gaps[first].start < offset + |data|
    requires last == LastTouching(s.gaps, offset + |data|, first)
    ensures Touches(s.gaps, offset, offset + |data|, first, last)
    ensures Push(s, offset, data).0 in {Stored, TooManyGaps}
    ensures var rem := Remaining(s.gaps, first, last, Max(offset, s.gaps[first].start),
                                 Min(offset + |data|, s.gaps[last].end));
            Push(s, offset, data).1.gaps == s.gaps[..first] + rem + s.gaps[last + 1..]
  {
    PushStores(s, offset, data, first, last);
  }

  /** A frame without missing bytes leaves the gaps alone. */
  lemma {:induction false} PushKeepsGaps(s: Sorter, offset: nat, data: Bytes, first: nat)
    requires WellFormed(s.gaps) && first == FirstTouching(s.gaps, offset, 0) < |s.gaps|
    requires Shadowed(s, offset, data) || offset + |data| <= s.gaps[first].start
    ensures Push(s, offset, data).0 == Duplicate && Push(s, offset, data).1.gaps == s.gaps
  {
  }

  lemma {:induction false} ShadowedReceived(s: Sorter, offset: nat, data: Bytes)
    requires Inv(s) && Shadowed(s, offset, data)
    ensures Received(s.gaps, offset, offset + |data|)
  {
  }

  lemma {:induction false} BelowGapReceived(gaps: seq<Interval>, offset: nat, end: nat, first: nat)
    requires Separated(gaps) && first == FirstTouching(gaps, offset, 0) < |gaps| && end <= gaps[first].start
    ensures Received(gaps, offset, end)
  {
    GapsBeforeFirst(gaps, offset);
    forall x | offset <= x < end ensures !Missing(gaps, x) {
      ReceivedBetween(gaps, first, x);
    }
  }

  /** What one push does to the gaps, whatever branch it takes. */
  lemma {:induction false} PushExact(s: Sorter, offset: nat, data: Bytes)
    requires Inv(s) && offset + |data| < MAX_BYTE_COUNT
    ensures Push(s, offset, data).0 in {Stored, Duplicate, TooManyGaps}
    ensures WellFormed(Push(s, offset, data).1.gaps)
    ensures Minus(s.gaps, Push(s, offset, data).1.gaps, offset, offset + |data|)
  {
    var end := offset + |data|;
    PushWellFormed(s, offset, data);
    FirstTouchingExists(s.gaps, offset);
    var first := FirstTouching(s.gaps, offset, 0);
    if Shadowed(s, offset, data) {
      ShadowedReceived(s, offset, data);
      PushKeepsGaps(s, offset, data, first);
    } else if end <= s.gaps[first].start {
      BelowGapReceived(s.gaps, offset, end, first);
      PushKeepsGaps(s, offset, data, first);
    } else {
      var last := LastTouching(s.gaps, end, first);
      PushSplices(s, offset, data, first, last);
      SpliceMinus(s.gaps, offset, end, first, last, Push(s, offset, data).1.gaps);
    }
  }

  lemma {:induction false} SpliceMinus(gaps: seq<Interval>, s: nat, e: nat, first: nat, last: nat, after: seq<Interval>)
    requires s < e && Separated(gaps) && Touches(gaps, s, e, first, last) && first == FirstTouching(gaps, s, 0)
    requires after == gaps[..first]
                      + Remaining(gaps, first, last, Max(s, gaps[first].start), Min(e, gaps[last].end))
                      + gaps[last + 1..]
    ensures Minus(gaps, after, s, e)
  {
    GapsBeforeFirst(gaps, s);
    forall x ensures Missing(after, x) <==> Missing(gaps, x) && !(s <= x < e) {
      SpliceMissing(gaps, s, e, first, last, x);
    }
  }

  lemma {:induction false} ReceivedBetween(gaps: seq<Interval>, first: nat, x: int)
    requires Separated(gaps) && first < |gaps| && x < gaps[first].start
    requires forall j | 0 <= j < first :: gaps[j].end <= x
    ensures !Missing(gaps, x)
  {
    forall i | 0 <= i < |gaps| ensures !(gaps[i].start <= x < gaps[i].end) {
      assert i > first ==> Before(gaps, first, i);
    }
  }

  lemma {:induction false} DropSubset(q: Queue, gaps: seq<Interval>, first: nat, last: nat, lo: nat, k: nat)
    requires first <= last <= |gaps| && k in Drop(q, gaps, first, last, lo)
    ensures k in q && Drop(q, gaps, first, last, lo)[k] == q[k]
  {
    if first < last {
      DropSubset(q, gaps, first, last - 1, lo, k);
    }
  }

  /** The entry (k, v) is part of the frame (offset, data). */
  ghost predicate PartOf(k: nat, v: Bytes, offset: nat, data: Bytes) {
    && offset <= k < offset + |data|
    && k + |v| <= offset + |data|
    && v == data[k - offset..k - offset + |v|]
  }

  lemma {:induction false} FirstTouchingExists(gaps: seq<Interval>, s: nat)
    requires WellFormed(gaps) && s < MAX_BYTE_COUNT
    ensures FirstTouching(gaps, s, 0) < |gaps|
  {
    if FirstTouching(gaps, s, 0) == |gaps| {
      BeforeFirst(gaps, s, 0, |gaps| - 1);
    }
  }

  lemma {:induction false} StoresKeys(s: Sorter, offset: nat, data: Bytes, first: nat, last: nat, k: nat)
    requires |data| > 0 && Touches(s.gaps, offset, offset + |data|, first, last)
    requires k in Stores(s, offset, data, first, last).queue
    ensures var v := Stores(s, offset, data, first, last).queue[k];
            (k in s.queue && v == s.queue[k]) || PartOf(k, v, offset, data)
  {
    var lo := Max(offset, s.gaps[first].start);
    if k in Drop(s.queue, s.gaps, first, last, lo) {
      DropSubset(s.queue, s.gaps, first, last, lo, k);
    }
  }

  /** An entry queued after a push was queued before, or is part of the pushed frame. */
  lemma {:induction false} PushKeys(s: Sorter, offset: nat, data: Bytes, k: nat)
    requires WellFormed(s.gaps) && offset + |data| < MAX_BYTE_COUNT
    requires k in Push(s, offset, data).1.queue
    ensures var v := Push(s, offset, data).1.queue[k];
            (k in s.queue && v == s.queue[k]) || PartOf(k, v, offset, data)
  {
    var end := offset + |data|;
    FirstTouchingExists(s.gaps, offset);
    var first := FirstTouching(s.gaps, offset, 0);
    if Shadowed(s, offset, data) {
    } else if s.gaps[first].start < end {
      var last := LastTouching(s.gaps, end, first);
      PushStores(s, offset, data, first, last);
      StoresKeys(s.(queue := Replaced(s.queue, offset, data)), offset, data, first, last, k);
      if k in Replaced(s.queue, offset, data) {
        ReplacedKeys(s.queue, offset, data, k);
      }
    } else {
      PushOnlyReplaces(s, offset, data, first);
      ReplacedKeys(s.queue, offset, data, k);
    }
  }

  lemma {:induction false} ReplacedKeys(q: Queue, offset: nat, data: Bytes, k: nat)
    requires |data| > 0 && k in Replaced(q, offset, data)
    ensures var v := Replaced(q, offset, data)[k];
            (k in q && v == q[k]) || PartOf(k, v, offset, data)
  {
    if k == offset {
      assert data[0..|data|] == data;
    }
  }

  lemma {:induction false} PushInv(s: Sorter, offset: nat, data: Bytes)
    requires Inv(s) && offset + |data| < MAX_BYTE_COUNT
    ensures Inv(Push(s, offset, data).1)
    ensures Push(s, offset, data).1.readPos == s.readPos
  {
    var s' := Push(s, offset, data).1;
    PushExact(s, offset, data);
    forall k | k in s'.queue ensures Received(s'.gaps, k, k + |s'.queue[k]|) && !Missing(s'.gaps, k) {
      PushKeys(s, offset, data, k);
    }
  }

  lemma {:induction false} PopInv(s: Sorter)
    requires Inv(s)
    ensures Inv(Pop(s))
  {
  }

  datatype Op = PushOp(offset: nat, data: Bytes) | PopOp

  predicate Bounded(ops: seq<Op>) {
    forall i | 0 <= i < |ops| :: ops[i].PushOp? ==> ops[i].offset + |ops[i].data| < MAX_BYTE_COUNT
  }

  /** The sorter after any run of pushes (with ends below the largest offset) and pops. */
  ghost function Run(ops: seq<Op>): (s: Sorter)
    requires Bounded(ops)
    ensures Inv(s)
  {
    if |ops| == 0 then EMPTY
    else
      var s := Run(ops[..|ops| - 1]);
      match ops[|ops| - 1]
      case PushOp(offset, data) => PushInv(s, offset, data); Push(s, offset, data).1
      case PopOp => Pop(s)
  }

  ghost predicate Covers(op: Op, x: int) {
    op.PushOp? && op.offset <= x < op.offset + |op.data|
  }

  ghost predicate Pushed(ops: seq<Op>, x: int) {
    exists i | 0 <= i < |ops| :: Covers(ops[i], x)
  }

  lemma {:induction false} PushedSnoc(ops: seq<Op>, x: int)
    requires |ops| > 0
    ensures Pushed(ops, x) <==> Pushed(ops[..|ops| - 1], x) || Covers(ops[|ops| - 1], x)
  {
    var n := |ops| - 1;
    if Pushed(ops[..n], x) {
      var i :| 0 <= i < n && Covers(ops[..n][i], x);
      assert Covers(ops[i], x);
    }
    if Pushed(ops, x) {
      var i :| 0 <= i < |ops| && Covers(ops[i], x);
      assert i < n ==> Covers(ops[..n][i], x);
    }
  }

  /** Exactness over whole runs: an offset is in a gap if and only if no push covered it. */
  lemma {:induction false} GapsAreComplement(ops: seq<Op>, x: nat)
    requires Bounded(ops) && x < MAX_BYTE_COUNT
    ensures Missing(Run(ops).gaps, x) <==> !Pushed(ops, x)
  {
    if |ops| == 0 {
      assert EMPTY.gaps[0].start <= x < EMPTY.gaps[0].end;
    } else {
      var n := |ops| - 1;
      GapsAreComplement(ops[..n], x);
      PushedSnoc(ops, x);
      if ops[n].PushOp? {
        PushExact(Run(ops[..n]), ops[n].offset, ops[n].data);
      }
    }
  }

  /** Neither "BUG: no gap found" nor "BUG: no end gap found" can follow any run. */
  lemma {:induction false} BugErrorsUnreachable(ops: seq<Op>, offset: nat, data: Bytes)
    requires Bounded(ops) && offset + |data| < MAX_BYTE_COUNT
    ensures Push(Run(ops), offset, data).0 != NoGapFound && Push(Run(ops), offset, data).0 != NoEndGapFound
  {
    PushExact(Run(ops), offset, data);
  }
}
