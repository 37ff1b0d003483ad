/** Which streams a packet of the replay serves, and that the naive scheduler goes round (python/har_converter.py). */
module ReplayFairness {
  import opened Protocol
  import opened Replay
  import DQ = DynamicQueue
  import Seqs

  function IdsOf(frames: seq<Frame>): (q: seq<nat>)
    ensures |q| == |frames| && forall k | 0 <= k < |frames| :: q[k] == frames[k].id
  {
    seq(|frames|, k requires 0 <= k < |frames| => frames[k].id)
  }

  /** The last frame of the packet leaves its resource unfinished. */
  predicate Cut(frames: seq<Frame>) {
    |frames| > 0 && !frames[|frames| - 1].finished
  }

  /** What goes back to the queue. */
  function Back(frames: seq<Frame>): seq<nat> {
    if Cut(frames) then [frames[|frames| - 1].id] else []
  }

  /** The frames serve the queue in order, and what is left of it is followed by the stream that was cut. */
  ghost predicate InTurn(s: State, frames: seq<Frame>, s': State) {
    && |frames| <= |s.queue| && IdsOf(frames) == s.queue[..|frames|]
    && s'.queue == s.queue[|frames|..] + Back(frames)
  }

  /** A packet under construction after serving part of the queue. */
  lemma {:induction false} TurnGoesOn(s: State, bytes: nat, before: seq<Frame>, frames: seq<Frame>)
    requires Sized(s, |s.status|) && |s.queue| > 0 && bytes < DATA_BLOCK_SIZE
    requires var r := SendFirst(s, before, bytes);
             Fill(r.0, r.1, r.2).1 == r.1 + frames && InTurn(r.0, frames, Fill(r.0, r.1, r.2).0)
             && (r.2 >= DATA_BLOCK_SIZE ==> frames == [])
    ensures var f := SendFirst(s, before, bytes).1[|before|];
            && Fill(s, before, bytes).1 == before + ([f] + frames)
            && InTurn(s, [f] + frames, Fill(s, before, bytes).0)
  {
    var r := SendFirst(s, before, bytes);
    var f := r.1[|before|];
    var all := [f] + frames;
    Seqs.Assoc(before, [f], frames);
    assert r.1 == before + [f];
    if !f.finished {
      assert all == [f];
      assert s.queue[1..] == s.queue[|all|..];
    } else {
      assert r.0.queue == s.queue[1..];
      assert s.queue[..|all|] == [s.queue[0]] + s.queue[1..][..|frames|];
      assert s.queue[|all|..] == s.queue[1..][|frames|..];
      assert Back(all) == Back(frames);
    }
    assert IdsOf(all) == [f.id] + IdsOf(frames);
  }

  lemma {:induction false} FillFrom(s: State, before: seq<Frame>, bytes: nat) returns (frames: seq<Frame>)
    requires Sized(s, |s.status|)
    ensures Fill(s, before, bytes).1 == before + frames && InTurn(s, frames, Fill(s, before, bytes).0)
    ensures bytes >= DATA_BLOCK_SIZE ==> frames == []
    decreases if bytes < DATA_BLOCK_SIZE then 1 else 0, |s.queue|
  {
    if bytes >= DATA_BLOCK_SIZE || |s.queue| == 0 {
      frames := [];
      Seqs.NothingAdded(before);
      assert s.queue[0..] + [] == s.queue;
      assert IdsOf([]) == s.queue[..0];
    } else {
      var r := SendFirst(s, before, bytes);
      var rest := FillFrom(r.0, r.1, r.2);
      TurnGoesOn(s, bytes, before, rest);
      frames := [r.1[|before|]] + rest;
    }
  }

  lemma {:induction false} FillEmpty(s: State, none: seq<Frame>, bytes: nat)
    requires Sized(s, |s.status|) && none == []
    ensures InTurn(s, Fill(s, none, bytes).1, Fill(s, none, bytes).0)
  {
    var frames := FillFrom(s, none, bytes);
    assert none + frames == frames;
  }

  /**
   * A packet serves the streams at the front of the queue, in order. The rest of the queue stays, and the
   * last stream served goes behind it if it is not finished.
   */
  lemma {:induction false} FillInTurn(s: State)
    requires Sized(s, |s.status|)
    ensures InTurn(s, Fill(s, [], 0).1, Fill(s, [], 0).0)
  {
    FillEmpty(s, [], 0);
  }

  lemma {:induction false} FillSome(s: State, before: seq<Frame>, bytes: nat)
    requires Sized(s, |s.status|)
    requires |before| > 0 || (|s.queue| > 0 && bytes < DATA_BLOCK_SIZE)
    ensures |Fill(s, before, bytes).1| > 0
    decreases if bytes < DATA_BLOCK_SIZE then 1 else 0, |s.queue|
  {
    if !(bytes >= DATA_BLOCK_SIZE || |s.queue| == 0) {
      var r := SendFirst(s, before, bytes);
      FillSome(r.0, r.1, r.2);
    }
  }

  lemma {:induction false} FullFrom(s: State, before: seq<Frame>, bytes: nat)
    requires Sized(s, |s.status|) && Filling(before, bytes)
    ensures var (s', frames) := Fill(s, before, bytes);
            Replay.Bytes(frames) == DATA_BLOCK_SIZE || (s'.queue == [] && !Cut(frames))
    decreases if bytes < DATA_BLOCK_SIZE then 1 else 0, |s.queue|
  {
    if !(bytes >= DATA_BLOCK_SIZE || |s.queue| == 0) {
      var r := SendFirst(s, before, bytes);
      SendFilling(s, before, bytes);
      FullFrom(r.0, r.1, r.2);
    }
  }

  /** A packet is full, or it finishes everything that waited. */
  lemma {:induction false} FillFull(s: State)
    requires Sized(s, |s.status|)
    ensures var (s', frames) := Fill(s, [], 0);
            Replay.Bytes(frames) == DATA_BLOCK_SIZE || (s'.queue == [] && !Cut(frames))
  {
    FullFrom(s, [], 0);
  }

  /** Entry i becomes ready in this round. */
  ghost predicate Ready(e: seq<Entry>, s: State, i: nat)
    requires i < |e| && Sized(s, |e|) && DependenciesBelow(e[i], |e|)
  {
    s.status[i] == Unavailable && DependenciesMet(e[i], s.status)
  }

  ghost predicate Below(q: seq<nat>, i: nat, j: nat)
    requires i < j < |q|
  {
    q[i] < q[j]
  }

  ghost predicate Increasing(q: seq<nat>) {
    forall i: nat, j: nat | i < j < |q| :: Below(q, i, j)
  }

  lemma {:induction false} StatusAfter(e: seq<Entry>, root: nat, s: State, n: nat, i: nat)
    requires n <= |e| && Known(e, root) && Sized(s, |e|) && i < |e|
    ensures var t := EnqueueAll(e, s, n).status;
            && (t[i] == Finished <==> s.status[i] == Finished)
            && (i >= n ==> t[i] == s.status[i])
  {
    if n > 0 {
      StatusAfter(e, root, s, n - 1, i);
    }
  }

  /** Enqueuing others does not make an entry ready. */
  lemma {:induction false} ReadyAfter(e: seq<Entry>, root: nat, s: State, n: nat)
    requires n < |e| && Known(e, root) && Sized(s, |e|)
    ensures Ready(e, EnqueueAll(e, s, n), n) <==> Ready(e, s, n)
  {
    StatusAfter(e, root, s, n, n);
    forall k | 0 <= k < |e[n].dependencies|
      ensures EnqueueAll(e, s, n).status[e[n].dependencies[k]] == Finished
              <==> s.status[e[n].dependencies[k]] == Finished
    {
      StatusAfter(e, root, s, n, e[n].dependencies[k]);
    }
  }

  /** The new ones of the entries below n. */
  ghost predicate NewOnes(e: seq<Entry>, s: State, n: nat, new': seq<nat>)
    requires n <= |e| && Sized(s, |e|) && forall i | 0 <= i < |e| :: DependenciesBelow(e[i], |e|)
  {
    Increasing(new') && forall i: nat :: i in new' <==> i < n && Ready(e, s, i)
  }

  lemma {:induction false} NewSnoc(e: seq<Entry>, s: State, n: nat, new': seq<nat>)
    requires n < |e| && Sized(s, |e|) && forall i | 0 <= i < |e| :: DependenciesBelow(e[i], |e|)
    requires NewOnes(e, s, n, new')
    ensures NewOnes(e, s, n + 1, if Ready(e, s, n) then new' + [n] else new')
  {
    if Ready(e, s, n) {
      var q := new' + [n];
      forall i: nat, j: nat | i < j < |q| ensures Below(q, i, j) {
        if j < |new'| {
          assert Below(new', i, j);
        } else {
          assert new'[i] in new';
        }
      }
      forall i: nat ensures i in q <==> i < n + 1 && Ready(e, s, i) {
        assert i in q <==> i in new' || i == n;
      }
    }
  }

  lemma {:induction false} JoinBelow(e: seq<Entry>, root: nat, s: State, n: nat) returns (new': seq<nat>)
    requires n <= |e| && Known(e, root) && Sized(s, |e|)
    ensures EnqueueAll(e, s, n).queue == s.queue + new' && NewOnes(e, s, n, new')
  {
    if n == 0 {
      new' := [];
      Seqs.NothingAdded(s.queue);
    } else {
      var before := JoinBelow(e, root, s, n - 1);
      ReadyAfter(e, root, s, n - 1);
      NewSnoc(e, s, n - 1, before);
      if Ready(e, s, n - 1) {
        new' := before + [n - 1];
        Seqs.Assoc(s.queue, before, [n - 1]);
      } else {
        new' := before;
      }
    }
  }

  lemma {:induction false} TimesAfter(e: seq<Entry>, root: nat, s: State, n: nat, i: nat)
    requires n <= |e| && Known(e, root) && Sized(s, |e|) && i < |e|
    ensures EnqueueAll(e, s, n).log == s.log
    ensures EnqueueAll(e, s, n).enqueuedAt[i] == if i < n && Ready(e, s, i) then Some(|s.log|) else s.enqueuedAt[i]
  {
    if n > 0 {
      TimesAfter(e, root, s, n - 1, i);
      ReadyAfter(e, root, s, n - 1);
    }
  }

  /**
   * Exactly the entries that have become ready join the queue, behind all others, in increasing order; they
   * are stamped with the number of the next packet, and the stamps of the others stay.
   */
  lemma {:induction false} ReadyJoin(e: seq<Entry>, root: nat, s: State) returns (new': seq<nat>)
    requires Known(e, root) && Sized(s, |e|)
    ensures EnqueueAll(e, s, |e|).queue == s.queue + new' && Increasing(new')
    ensures forall i: nat :: i in new' <==> i < |e| && Ready(e, s, i)
    ensures forall i: nat | i < |e| ::
              EnqueueAll(e, s, |e|).enqueuedAt[i] == if Ready(e, s, i) then Some(|s.log|) else s.enqueuedAt[i]
  {
    new' := JoinBelow(e, root, s, |e|);
    forall i: nat | i < |e|
      ensures EnqueueAll(e, s, |e|).enqueuedAt[i] == if Ready(e, s, i) then Some(|s.log|) else s.enqueuedAt[i]
    {
      TimesAfter(e, root, s, |e|, i);
    }
  }

  /**
   * The dynamic scheduler serves the queue by resource type, then by the time of enqueueing, then by position:
   * of two streams the first one outranks the second, or the second does not outrank it and it came earlier.
   */
  lemma {:induction false} DynamicInOrder(e: seq<Entry>, s: State, k: nat, m: nat) returns (a: nat, b: nat)
    requires Sized(s, |e|) && Timed(s) && k < m < |Order(e, s, true)|
    ensures a < |s.queue| && b < |s.queue| && a != b
    ensures Order(e, s, true)[k] == s.queue[a] && Order(e, s, true)[m] == s.queue[b]
    ensures var x, y := s.enqueuedAt[s.queue[a]].value, s.enqueuedAt[s.queue[b]].value;
            || DQ.Outranks(Items(e, s), a, b)
            || (!DQ.Outranks(Items(e, s), b, a) && (x < y || (x == y && a < b)))
  {
    var items := Items(e, s);
    DQ.OrderByType(items, k, m);
    a, b := DQ.Reordered(items)[k].position, DQ.Reordered(items)[m].position;
  }

  /** The stream at position k is in the packet, or moves forward by as many as are. */
  lemma {:induction false} TurnMoves(s: State, frames: seq<Frame>, s': State, k: nat)
    requires InTurn(s, frames, s') && k < |s.queue|
    ensures if k < |frames| then Has(frames, s.queue[k])
            else k - |frames| < |s'.queue| && s'.queue[k - |frames|] == s.queue[k]
  {
    var m := |frames|;
    if k < m {
      assert IdsOf(frames)[k] == s.queue[k];
      assert frames[k].id == s.queue[k];
    } else {
      assert s'.queue[k - m] == s.queue[m..][k - m];
    }
  }

  /** A round of the naive scheduler: enqueue, fill, close. */
  lemma {:induction false} NaiveParts(e: seq<Entry>, root: nat, s: State, s1: State)
    requires Inv(e, root, s, []) && s1 == EnqueueAll(e, s, |e|)
    ensures Inv(e, root, s1, []) && s1.log == s.log
    ensures var (s2, frames) := Fill(s1, [], 0);
            && s2.log == s.log && InRange(frames, |e|) && Sized(s2, |e|)
            && Round(e, root, s, false) == ClosePacket(s2, frames)
  {
    EnqueueAllKeeps(e, root, s, |e|);
    QueueTimed(e, root, s1);
    FillKeeps(e, root, s1, [], 0);
    assert s1.(queue := Order(e, s1, false)) == s1;
  }

  /** One round of the naive scheduler: the entry at position k is served or moves forward. */
  lemma {:induction false} NaiveRound(e: seq<Entry>, root: nat, s: State, k: nat) returns (m: nat)
    requires Inv(e, root, s, []) && k < |s.queue|
    ensures var t := Round(e, root, s, false);
            && |t.log| == |s.log| + 1 && |t.log[|s.log|]| == m > 0
            && if k < m then Has(t.log[|s.log|], s.queue[k])
               else k - m < |t.queue| && t.queue[k - m] == s.queue[k]
  {
    var new' := ReadyJoin(e, root, s);
    var s1 := EnqueueAll(e, s, |e|);
    NaiveParts(e, root, s, s1);
    assert s1.queue[k] == s.queue[k];
    FillInTurn(s1);
    FillSome(s1, [], 0);
    var (s2, frames) := Fill(s1, [], 0);
    m := |frames|;
    TurnMoves(s1, frames, s2, k);
  }

  /**
   * The naive scheduler is fair: whatever becomes ready meanwhile, the entry at position k of the queue is
   * in one of the next k + 1 packets.
   */
  lemma {:induction false} NaiveFair(e: seq<Entry>, root: nat, s: State, k: nat) returns (j: nat)
    requires Inv(e, root, s, []) && k < |s.queue|
    ensures j <= k
    ensures var t := Rounds(e, root, s, false, j + 1);
            |t.log| == |s.log| + j + 1 && Has(t.log[|s.log| + j], s.queue[k])
    decreases k
  {
    var m := NaiveRound(e, root, s, k);
    var r := Round(e, root, s, false);
    if k < m {
      j := 0;
      assert Rounds(e, root, s, false, 1) == Rounds(e, root, r, false, 0) == r;
    } else {
      var i := NaiveFair(e, root, r, k - m);
      j := i + 1;
      assert Rounds(e, root, s, false, j + 1) == Rounds(e, root, r, false, i + 1);
    }
  }
}
