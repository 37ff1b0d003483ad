/** What the map of incoming streams answers, told by the requests alone (quic-go/streams_map_incoming_generic.go). */
module IncomingAnswers {
  import opened Protocol
  import opened IncomingStreams

  /** The highest stream number the peer has used within the limit of its time. */
  ghost function Highest(maxStreams: nat, ops: seq<Op>): nat {
    var n := |ops| - 1;
    if n < 0 then 0
    else
      var h, limit := Highest(maxStreams, ops[..n]), maxStreams + Run(maxStreams, ops[..n]).deletions;
      if ops[n].Open? && h < ops[n].num <= limit then ops[n].num else h
  }

  /** The streams that have been deleted, at once or for later: each deletion of a stream that was opened. */
  ghost function Dropped(maxStreams: nat, ops: seq<Op>): set<nat> {
    var n := |ops| - 1;
    if n < 0 then {}
    else
      var d := Dropped(maxStreams, ops[..n]);
      if ops[n].Drop? && 1 <= ops[n].num <= Highest(maxStreams, ops[..n]) then d + {ops[n].num} else d
  }

  /** A stream is open unless it was deleted; if it was before it was accepted, it stays until then. */
  ghost predicate Matches(w: World, highest: nat, dropped: set<nat>) {
    && w.m.nextStreamToOpen == highest + 1
    && (forall x | x in dropped :: 1 <= x <= highest)
    && (forall x: nat | 1 <= x <= highest :: Opened(w, dropped, x))
  }

  ghost predicate Opened(w: World, dropped: set<nat>, x: nat) {
    && (x in w.m.streams <==> x !in dropped || x > |w.accepted|)
    && (x in w.m.streamsToDelete <==> x in dropped && x > |w.accepted|)
  }

  lemma {:induction false} OpenMatches(w: World, maxStreams: nat, num: nat, h: nat, d: set<nat>, h': nat)
    requires WorldOk(w, maxStreams) && Matches(w, h, d)
    requires h' == if h < num <= maxStreams + w.deletions then num else h
    ensures Matches(Next(w, Open(num)), h', d)
  {
    var w' := Next(w, Open(num));
    forall x: nat | 1 <= x <= h' ensures Opened(w', d, x) {
      assert x <= h ==> Opened(w, d, x);
    }
  }

  lemma {:induction false} TakeMatches(w: World, maxStreams: nat, h: nat, d: set<nat>)
    requires WorldOk(w, maxStreams) && Matches(w, h, d)
    ensures Matches(Next(w, Take), h, d)
  {
    var w', num := Next(w, Take), w.m.nextStreamToAccept;
    forall x: nat | 1 <= x <= h ensures Opened(w', d, x) {
      assert Opened(w, d, x);
    }
  }

  lemma {:induction false} DropMatches(w: World, maxStreams: nat, num: nat, h: nat, d: set<nat>, d': set<nat>)
    requires WorldOk(w, maxStreams) && Matches(w, h, d)
    requires d' == if 1 <= num <= h then d + {num} else d
    ensures Matches(Next(w, Drop(num)), h, d')
  {
    var w' := Next(w, Drop(num));
    if 1 <= num <= h {
      assert Opened(w, d, num);
    }
    forall x: nat | 1 <= x <= h ensures Opened(w', d', x) {
      assert Opened(w, d, x);
    }
  }

  lemma {:induction false} RunMatches(maxStreams: nat, ops: seq<Op>)
    ensures Matches(Run(maxStreams, ops), Highest(maxStreams, ops), Dropped(maxStreams, ops))
  {
    var n := |ops| - 1;
    if n >= 0 {
      RunMatches(maxStreams, ops[..n]);
      var w := Run(maxStreams, ops[..n]);
      var h, d := Highest(maxStreams, ops[..n]), Dropped(maxStreams, ops[..n]);
      match ops[n]
      case Open(num) => OpenMatches(w, maxStreams, num, h, d, Highest(maxStreams, ops));
      case Take => TakeMatches(w, maxStreams, h, d);
      case Drop(num) => DropMatches(w, maxStreams, num, h, d, Dropped(maxStreams, ops));
    }
  }

  /** The answers about stream `num`. */
  ghost predicate Expected(w: World, limit: nat, highest: nat, dropped: set<nat>, num: nat) {
    && GetOrOpen(w.m, num).0 == (if num > limit then LimitExceeded
                                 else if num == 0 || num in dropped then Gone
                                 else Stream(num))
    && Accept(w.m).0 == (if |w.accepted| < highest then Some(|w.accepted| + 1) else None)
    && Delete(w.m, num).0 == (if num == 0 || num > highest then UnknownStream
                              else if num > |w.accepted| then if num in dropped then DeletedTwice else Deferred
                              else if num in dropped then UnknownStream else Deleted)
  }

  lemma {:induction false} Answers(w: World, maxStreams: nat, highest: nat, dropped: set<nat>, num: nat)
    requires WorldOk(w, maxStreams) && Matches(w, highest, dropped)
    ensures Expected(w, maxStreams + w.deletions, highest, dropped, num)
  {
    if 1 <= num <= highest {
      assert Opened(w, dropped, num);
    }
    if |w.accepted| < highest {
      assert Opened(w, dropped, |w.accepted| + 1);
    }
  }

  /**
   * After every run: a number above the limit is refused, a deleted stream is gone, every other one is
   * there. The next stream is accepted if and only if it was opened. Deleting a stream is an error unless it
   * is open, or a second time before it is accepted; it waits exactly if the stream was not yet accepted.
   */
  lemma {:induction false} AnswersExact(maxStreams: nat, ops: seq<Op>, num: nat)
    ensures var w := Run(maxStreams, ops);
            Expected(w, maxStreams + w.deletions, Highest(maxStreams, ops), Dropped(maxStreams, ops), num)
  {
    RunMatches(maxStreams, ops);
    Answers(Run(maxStreams, ops), maxStreams, Highest(maxStreams, ops), Dropped(maxStreams, ops), num);
  }
}
