/** The packet numbers received so far, as ranges (quic-go/core/ackhandler/received_packet_history.go). */
module ReceivedHistory {
  import opened Protocol

  const MAX_NUM_ACK_RANGES := 500

  datatype Range = Range(start: int, end: int)

  ghost predicate Apart(r: seq<Range>, i: nat, j: nat)
    requires i < j < |r|
  {
    r[i].end + 1 < r[j].start
  }

  /** Ascending, non-empty and not adjacent. */
  ghost predicate WellFormed(r: seq<Range>) {
    && (forall i | 0 <= i < |r| :: r[i].start <= r[i].end)
    && (forall i: nat, j: nat | i < j < |r| :: Apart(r, i, j))
  }

  ghost predicate In(r: seq<Range>, x: int) {
    exists i | 0 <= i < |r| :: r[i].start <= x <= r[i].end
  }

  /** Adds p, looking from the highest range down (lines 34-75). */
  function Add(r: seq<Range>, p: int): seq<Range> {
    var n := |r|;
    if n == 0 then [Range(p, p)]
    else
      var el := r[n - 1];
      if el.start <= p <= el.end then r
      else if el.end == p - 1 then r[..n - 1] + [Range(el.start, p)]
      else if el.start == p + 1 then
        if n > 1 && r[n - 2].end + 1 == p then r[..n - 2] + [Range(r[n - 2].start, el.end)]
        else r[..n - 1] + [Range(p, el.end)]
      else if p > el.end then r + [Range(p, p)]
      else Add(r[..n - 1], p) + [el]
  }

  /** Keeps the highest ranges only (lines 79-83). */
  function Limit(r: seq<Range>): seq<Range> {
    if |r| > MAX_NUM_ACK_RANGES then r[|r| - MAX_NUM_ACK_RANGES..] else r
  }

  /** Forgets everything below p (lines 92-104). */
  function Cut(r: seq<Range>, p: int): seq<Range> {
    if |r| == 0 then []
    else if r[0].end < p then Cut(r[1..], p)
    else if p > r[0].start then [Range(p, r[0].end)] + r[1..]
    else r
  }

  datatype History = History(ranges: seq<Range>, deletedBelow: int)

  const EMPTY := History([], 0)

  function Receive(h: History, p: int): History {
    if p < h.deletedBelow then h else h.(ranges := Limit(Add(h.ranges, p)))
  }

  function DeleteBelow(h: History, p: int): History {
    if p < h.deletedBelow then h else History(Cut(h.ranges, p), p)
  }

  class ReceivedPacketHistory {
    var ranges: seq<Range>
    var deletedBelow: int

    ghost function State(): History
      reads this
    {
      History(ranges, deletedBelow)
    }

    constructor ()
      ensures State() == EMPTY
    {
      ranges, deletedBelow := [], 0;
    }

    method ReceivedPacket(p: int)
      modifies this
      ensures State() == Receive(old(State()), p)
    {
      if p < deletedBelow {
        return;
      }
      AddToRanges(p);
      MaybeDeleteOldRanges();
    }

    method AddToRanges(p: int)
      modifies this`ranges
      ensures ranges == Add(old(ranges), p)
    {
      ghost var r0 := ranges;
      var i := |ranges|;
      assert r0[..i] == r0 && r0[i..] == [];
      while i > 0
        invariant 0 <= i <= |r0| && ranges == r0
        invariant Add(r0, p) == Add(r0[..i], p) + r0[i..]
      {
        i := i - 1;
        AddSplit(r0, p, i);
        var el := ranges[i];
        if el.start <= p <= el.end {
          return;
        }
        if el.end == p - 1 {
          ranges := ranges[..i] + [Range(el.start, p)] + ranges[i + 1..];
          return;
        }
        if el.start == p + 1 {
          if i > 0 && ranges[i - 1].end + 1 == p {
            ranges := ranges[..i - 1] + [Range(ranges[i - 1].start, el.end)] + ranges[i + 1..];
          } else {
            ranges := ranges[..i] + [Range(p, el.end)] + ranges[i + 1..];
          }
          return;
        }
        if p > el.end {
          ranges := ranges[..i + 1] + [Range(p, p)] + ranges[i + 1..];
          return;
        }
      }
      ranges := [Range(p, p)] + ranges;
    }

    method MaybeDeleteOldRanges()
      modifies this`ranges
      ensures ranges == Limit(old(ranges))
    {
      ghost var r0 := ranges;
      ghost var k := 0;
      while |ranges| > MAX_NUM_ACK_RANGES
        invariant 0 <= k <= |r0| && ranges == r0[k..] && (k > 0 ==> |ranges| >= MAX_NUM_ACK_RANGES)
        decreases |ranges|
      {
        ranges := ranges[1..];
        k := k + 1;
      }
    }

    method DeleteBelowNumber(p: int)
      modifies this
      ensures State() == DeleteBelow(old(State()), p)
    {
      if p < deletedBelow {
        return;
      }
      deletedBelow := p;
      while |ranges| > 0
        invariant deletedBelow == p && Cut(ranges, p) == Cut(old(ranges), p)
        decreases |ranges|
      {
        if ranges[0].end < p {
          ranges := ranges[1..];
        } else if p > ranges[0].start {
          ranges := [Range(p, ranges[0].end)] + ranges[1..];
          return;
        } else {
          return;
        }
      }
    }
  }

  /** The range has nothing to do with p and does not lie below it. */
  predicate Passes(el: Range, p: int) {
    !(el.start <= p <= el.end) && el.end != p - 1 && el.start != p + 1 && p <= el.end
  }

  /** One step of the search from the back. */
  lemma {:induction false} AddSplit(r: seq<Range>, p: int, i: nat)
    requires i < |r| && Add(r, p) == Add(r[..i + 1], p) + r[i + 1..]
    ensures r[..i + 1][..i] == r[..i]
    ensures Passes(r[i], p) ==> Add(r, p) == Add(r[..i], p) + r[i..]
  {
    var s := r[..i + 1];
    assert s[..i] == r[..i];
    if Passes(r[i], p) {
      assert Add(s, p) == Add(r[..i], p) + [r[i]];
      assert [r[i]] + r[i + 1..] == r[i..];
    }
  }

  lemma {:induction false} InConcat(a: seq<Range>, b: seq<Range>, x: int)
    ensures In(a + b, x) <==> In(a, x) || In(b, x)
  {
    if In(a, x) {
      var i :| 0 <= i < |a| && a[i].start <= x <= a[i].end;
      assert (a + b)[i] == a[i];
    }
    if In(b, x) {
      var i :| 0 <= i < |b| && b[i].start <= x <= b[i].end;
      assert (a + b)[|a| + i] == b[i];
    }
  }

  lemma {:induction false} InOne(el: Range, x: int)
    ensures In([el], x) <==> el.start <= x <= el.end
  {
    assert [el][0] == el;
  }

  lemma {:induction false} WellFormedSlice(r: seq<Range>, i: nat, j: nat)
    requires WellFormed(r) && i <= j <= |r|
    ensures WellFormed(r[i..j])
  {
    forall k: nat, m: nat | k < m < |r[i..j]| ensures Apart(r[i..j], k, m) {
      assert Apart(r, i + k, i + m);
    }
  }

  /** Appending a range well above all others. */
  lemma {:induction false} WellFormedSnoc(r: seq<Range>, el: Range)
    requires WellFormed(r) && el.start <= el.end && (|r| > 0 ==> r[|r| - 1].end + 1 < el.start)
    ensures WellFormed(r + [el])
  {
    var n := |r|;
    forall i: nat, j: nat | i < j < |r + [el]| ensures Apart(r + [el], i, j) {
      if j < n {
        assert Apart(r, i, j);
      } else if i < n - 1 {
        assert Apart(r, i, n - 1);
      }
    }
  }

  /** Adding a number adds exactly that number and keeps the ranges sorted and apart; nothing above grows. */
  lemma {:induction false} AddExact(r: seq<Range>, p: int)
    requires WellFormed(r)
    ensures WellFormed(Add(r, p)) && |Add(r, p)| > 0
    ensures forall x :: In(Add(r, p), x) <==> In(r, x) || x == p
    ensures var top := Add(r, p)[|Add(r, p)| - 1].end;
            top == if |r| == 0 then p else Max(p, r[|r| - 1].end)
  {
    var n := |r|;
    if n == 0 {
      forall x ensures In([Range(p, p)], x) <==> x == p {
        InOne(Range(p, p), x);
      }
    } else {
      var init, el := r[..n - 1], r[n - 1];
      WellFormedSlice(r, 0, n - 1);
      assert init == r[0..n - 1] && r == init + [el];
      assert n > 1 ==> Apart(r, n - 2, n - 1);
      AddLast(init, el, p);
      if Passes(el, p) {
        AddExact(init, p);
        AddBelow(init, el, p);
      }
    }
  }

  lemma {:induction false} AddBelow(init: seq<Range>, el: Range, p: int)
    requires WellFormed(Add(init, p)) && |Add(init, p)| > 0 && el.start <= el.end
    requires Add(init, p)[|Add(init, p)| - 1].end + 1 < el.start
    requires forall x :: In(Add(init, p), x) <==> In(init, x) || x == p
    ensures WellFormed(Add(init, p) + [el])
    ensures forall x :: In(Add(init, p) + [el], x) <==> In(init + [el], x) || x == p
  {
    WellFormedSnoc(Add(init, p), el);
    forall x ensures In(Add(init, p) + [el], x) <==> In(init + [el], x) || x == p {
      InConcat(Add(init, p), [el], x);
      InConcat(init, [el], x);
    }
  }

  /** Replacing the highest range by one that also holds p. */
  lemma {:induction false} Widen(init: seq<Range>, el: Range, el': Range, p: int)
    requires WellFormed(init) && el'.start <= el'.end && (|init| > 0 ==> init[|init| - 1].end + 1 < el'.start)
    requires || (el' == el && el.start <= p <= el.end)
             || (el' == Range(el.start, p) && el.end + 1 == p)
             || (el' == Range(p, el.end) && p + 1 == el.start)
    requires el.start <= el.end
    ensures WellFormed(init + [el'])
    ensures forall x :: In(init + [el'], x) <==> In(init + [el], x) || x == p
  {
    WellFormedSnoc(init, el');
    forall x ensures In(init + [el'], x) <==> In(init + [el], x) || x == p {
      InConcat(init, [el'], x);
      InConcat(init, [el], x);
      InOne(el, x);
      InOne(el', x);
    }
  }

  /** Closing the one-number hole p between the two highest ranges. */
  lemma {:induction false} Merge(init: seq<Range>, prev: Range, el: Range, p: int)
    requires WellFormed(init + [prev]) && prev.end + 1 == p && el.start == p + 1 && el.start <= el.end
    ensures var r := init + [Range(prev.start, el.end)];
            && WellFormed(r)
            && (forall x :: In(r, x) <==> In(init + [prev] + [el], x) || x == p)
  {
    var n, both, one := |init|, init + [prev], Range(prev.start, el.end);
    WellFormedSlice(both, 0, n);
    assert init == both[0..n];
    assert n > 0 ==> Apart(both, n - 1, n);
    assert both[n] == prev;
    WellFormedSnoc(init, one);
    forall x ensures In(init + [one], x) <==> In(both + [el], x) || x == p {
      InConcat(init, [one], x);
      InConcat(both, [el], x);
      InConcat(init, [prev], x);
      InOne(prev, x);
      InOne(el, x);
      InOne(one, x);
    }
  }

  /** The cases decided at the highest range. */
  lemma {:induction false} AddLast(init: seq<Range>, el: Range, p: int)
    requires WellFormed(init) && el.start <= el.end && (|init| > 0 ==> init[|init| - 1].end + 1 < el.start)
    ensures !Passes(el, p) ==>
              && WellFormed(Add(init + [el], p)) && |Add(init + [el], p)| > 0
              && Add(init + [el], p)[|Add(init + [el], p)| - 1].end == Max(p, el.end)
              && (forall x :: In(Add(init + [el], p), x) <==> In(init + [el], x) || x == p)
    ensures Passes(el, p) ==> Add(init + [el], p) == Add(init, p) + [el]
  {
    var r, n := init + [el], |init|;
    assert r[..n] == init;
    if el.start <= p <= el.end {
      Widen(init, el, el, p);
    } else if el.end == p - 1 {
      Widen(init, el, Range(el.start, p), p);
    } else if el.start == p + 1 {
      if n > 0 && init[n - 1].end + 1 == p {
        assert r[..n - 1] == init[..n - 1] && init == init[..n - 1] + [init[n - 1]];
        Merge(init[..n - 1], init[n - 1], el, p);
      } else {
        Widen(init, el, Range(p, el.end), p);
      }
    } else if p > el.end {
      WellFormedSnoc(init, el);
      WellFormedSnoc(r, Range(p, p));
      forall x ensures In(r + [Range(p, p)], x) <==> In(r, x) || x == p {
        InConcat(r, [Range(p, p)], x);
        InOne(Range(p, p), x);
      }
    }
  }

  /** Cutting forgets exactly the numbers below p. */
  lemma {:induction false} CutExact(r: seq<Range>, p: int)
    requires WellFormed(r)
    ensures WellFormed(Cut(r, p))
    ensures forall x :: In(Cut(r, p), x) <==> In(r, x) && x >= p
    ensures |Cut(r, p)| <= |r|
    ensures |Cut(r, p)| > 0 ==> |r| > 0 && r[0].start <= Cut(r, p)[0].start
  {
    if |r| > 0 {
      var el, tail := r[0], r[1..];
      WellFormedSlice(r, 1, |r|);
      assert tail == r[1..|r|] && r == [el] + tail;
      if el.end < p {
        CutExact(tail, p);
        assert |r| > 1 ==> Apart(r, 0, 1);
        forall x ensures In(Cut(r, p), x) <==> In(r, x) && x >= p {
          InConcat([el], tail, x);
          InOne(el, x);
        }
      } else {
        CutFirst(r, p);
      }
    }
  }

  lemma {:induction false} CutFirst(r: seq<Range>, p: int)
    requires WellFormed(r) && |r| > 0 && p <= r[0].end
    ensures WellFormed(Cut(r, p)) && |Cut(r, p)| == |r| && r[0].start <= Cut(r, p)[0].start
    ensures forall x :: In(Cut(r, p), x) <==> In(r, x) && x >= p
  {
    var tail, el, el' := r[1..], r[0], Range(Max(p, r[0].start), r[0].end);
    assert Cut(r, p) == [el'] + tail && r == [el] + tail;
    forall i: nat, j: nat | i < j < |Cut(r, p)| ensures Apart(Cut(r, p), i, j) {
      assert Apart(r, i, j);
    }
    forall x ensures In(Cut(r, p), x) <==> In(r, x) && x >= p {
      InConcat([el], tail, x);
      InConcat([el'], tail, x);
      InOne(el, x);
      InOne(el', x);
      if In(tail, x) {
        TailAbove(r, x);
      }
    }
  }

  lemma {:induction false} TailAbove(r: seq<Range>, x: int)
    requires WellFormed(r) && |r| > 0 && In(r[1..], x)
    ensures x > r[0].end
  {
    var k :| 0 <= k < |r[1..]| && r[1..][k].start <= x <= r[1..][k].end;
    assert Apart(r, 0, k + 1);
  }

  datatype Op = Received(p: nat) | Delete(p: nat)

  function Apply(h: History, op: Op): History {
    match op
    case Received(p) => Receive(h, p)
    case Delete(p) => DeleteBelow(h, p)
  }

  /** The history after any sequence of received packets and deletions. */
  function Run(ops: seq<Op>): History {
    if |ops| == 0 then EMPTY else Apply(Run(ops[..|ops| - 1]), ops[|ops| - 1])
  }

  /** Whole ranges are dropped from the low end, and only when there are too many. */
  lemma {:induction false} LimitExact(r: seq<Range>)
    requires WellFormed(r)
    ensures WellFormed(Limit(r)) && |Limit(r)| <= MAX_NUM_ACK_RANGES && (|r| > 0 ==> |Limit(r)| > 0)
    ensures |r| <= MAX_NUM_ACK_RANGES ==> Limit(r) == r
    ensures forall x :: In(Limit(r), x) <==> In(r, x) && !Below(r, x)
  {
    if |r| > MAX_NUM_ACK_RANGES {
      var k := |r| - MAX_NUM_ACK_RANGES;
      WellFormedSlice(r, k, |r|);
      assert Limit(r) == r[k..|r|];
      forall x ensures In(r[k..], x) <==> In(r, x) && !Below(r, x) {
        SliceExact(r, k, x);
      }
    }
  }

  /** Whether the limit drops x. */
  ghost predicate Below(r: seq<Range>, x: int) {
    |r| > MAX_NUM_ACK_RANGES && x < r[|r| - MAX_NUM_ACK_RANGES].start
  }

  lemma {:induction false} SliceExact(r: seq<Range>, k: nat, x: int)
    requires WellFormed(r) && k < |r|
    ensures In(r[k..], x) <==> In(r, x) && x >= r[k].start
  {
    if In(r[k..], x) {
      var i :| 0 <= i < |r[k..]| && r[k..][i].start <= x <= r[k..][i].end;
      assert r[k + i].start <= x <= r[k + i].end;
      assert i > 0 ==> Apart(r, k, k + i);
    }
    if In(r, x) && x >= r[k].start {
      var i :| 0 <= i < |r| && r[i].start <= x <= r[i].end;
      assert i < k ==> Apart(r, i, k);
      assert i >= k ==> r[k..][i - k].start <= x <= r[k..][i - k].end;
    }
  }

  /** The last operation drops the range of x because there are too many. */
  ghost predicate EvictsLast(ops: seq<Op>, x: int)
    requires |ops| > 0
  {
    var h, op := Run(ops[..|ops| - 1]), ops[|ops| - 1];
    op.Received? && op.p >= h.deletedBelow && Below(Add(h.ranges, op.p), x)
  }

  ghost predicate Evicts(ops: seq<Op>, j: nat, x: int) {
    j < |ops| && EvictsLast(ops[..j + 1], x)
  }

  /** Operation i received x, and neither it nor any later one dropped x for lack of room. */
  ghost predicate HeldSince(ops: seq<Op>, i: nat, x: int) {
    i < |ops| && ops[i].Received? && ops[i].p == x && forall j: nat | i <= j < |ops| :: !Evicts(ops, j, x)
  }

  ghost predicate Held(ops: seq<Op>, x: int) {
    exists i: nat :: HeldSince(ops, i, x)
  }

  lemma {:induction false} EvictsPrefix(ops: seq<Op>, j: nat, x: int)
    requires |ops| > 0 && j < |ops| - 1
    ensures Evicts(ops[..|ops| - 1], j, x) == Evicts(ops, j, x)
  {
    assert ops[..|ops| - 1][..j + 1] == ops[..j + 1];
  }

  lemma {:induction false} HeldSnoc(ops: seq<Op>, x: int)
    requires |ops| > 0
    ensures var n := |ops| - 1;
            Held(ops, x) <==> (Held(ops[..n], x) || (ops[n].Received? && ops[n].p == x)) && !EvictsLast(ops, x)
  {
    var n := |ops| - 1;
    assert ops[..n + 1] == ops;
    forall j: nat | j < n ensures Evicts(ops[..n], j, x) == Evicts(ops, j, x) {
      EvictsPrefix(ops, j, x);
    }
    if Held(ops, x) {
      var i: nat :| HeldSince(ops, i, x);
      assert !Evicts(ops, n, x);
      assert i < n ==> HeldSince(ops[..n], i, x);
    }
    if !EvictsLast(ops, x) {
      if Held(ops[..n], x) {
        var i: nat :| HeldSince(ops[..n], i, x);
        assert HeldSince(ops, i, x);
      } else if ops[n].Received? && ops[n].p == x {
        assert HeldSince(ops, n, x);
      }
    }
  }

  /**
   * Over all runs the ranges stay sorted and apart, at most 500 of them, and hold exactly the received
   * numbers at or above the deletion bound, except those whose range was dropped for lack of room.
   */
  lemma {:induction false} HistoryExact(ops: seq<Op>)
    ensures var h := Run(ops);
            && WellFormed(h.ranges) && |h.ranges| <= MAX_NUM_ACK_RANGES
            && (forall x :: In(h.ranges, x) <==> h.deletedBelow <= x && Held(ops, x))
  {
    if |ops| > 0 {
      var n := |ops| - 1;
      HistoryExact(ops[..n]);
      HistoryStep(ops, Run(ops[..n]), ops[n]);
    } else {
      assert forall x :: !Held(ops, x);
    }
  }

  lemma {:induction false} HistoryStep(ops: seq<Op>, h: History, op: Op)
    requires |ops| > 0 && h == Run(ops[..|ops| - 1]) && op == ops[|ops| - 1]
    requires WellFormed(h.ranges) && |h.ranges| <= MAX_NUM_ACK_RANGES
    requires forall x :: In(h.ranges, x) <==> h.deletedBelow <= x && Held(ops[..|ops| - 1], x)
    ensures var h' := Apply(h, op);
            && WellFormed(h'.ranges) && |h'.ranges| <= MAX_NUM_ACK_RANGES
            && (forall x :: In(h'.ranges, x) <==> h'.deletedBelow <= x && Held(ops, x))
  {
    match op {
      case Received(p) =>
        AddExact(h.ranges, p);
        LimitExact(Add(h.ranges, p));
      case Delete(p) =>
        CutExact(h.ranges, p);
    }
    forall x ensures In(Apply(h, op).ranges, x) <==> Apply(h, op).deletedBelow <= x && Held(ops, x) {
      HeldSnoc(ops, x);
    }
  }
}
