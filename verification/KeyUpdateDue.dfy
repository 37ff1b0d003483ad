/** When an endpoint starts a key update, counted in packets (quic-go/core/handshake/updatable_aead.go). */
module KeyUpdateDue {
  // The counters of the endpoint are tied to the moves of the run, and the decision to the moves alone.

  import opened Protocol
  import opened KeyUpdate
  import opened KeyUpdateProtocol

  /** One of the two endpoints, and its peer. */
  function Own(w: World, byX: bool): Side {
    if byX then w.x else w.y
  }

  function Peer(w: World, byX: bool): Side {
    if byX then w.y else w.x
  }

  /** The packets sent in the current key phase. */
  ghost function SentNow(x: Side): set<nat> {
    set n | n in x.sent && x.sent[n].sealed == x.aead.keyPhase
  }

  lemma {:induction false} LastMove(moves: seq<Move>)
    requires Run(moves).Reached? && |moves| > 0
    ensures var n := |moves| - 1;
            var o := Run(moves[..n]);
            && o.Reached? && Enabled(Own(o.world, moves[n].byX), Peer(o.world, moves[n].byX), moves[n].step)
            && Peer(Run(moves).world, moves[n].byX) == Peer(o.world, moves[n].byX)
            && Own(Run(moves).world, moves[n].byX)
               == Next(Own(o.world, moves[n].byX), Peer(o.world, moves[n].byX), moves[n].step)
  {
  }

  /** The endpoint opens the packet with the keys in use. */
  predicate OpensNow(x: Side, y: Side, step: Step)
    requires Enabled(x, y, step)
  {
    && step.Receive? && OpenResult(x, y, step.pn, step.expired).0 == Opened
    && y.sent[step.pn].sealed == x.aead.keyPhase
  }

  /** How often the endpoint opened a packet with the keys in use since it last changed them. */
  ghost function Opens(moves: seq<Move>, byX: bool): nat
    requires Run(moves).Reached?
  {
    var n := |moves| - 1;
    if n < 0 then 0
    else
      LastMove(moves);
      var w, w' := Run(moves[..n]).world, Run(moves).world;
      if moves[n].byX != byX then Opens(moves[..n], byX)
      else if Own(w', byX).aead.keyPhase != Own(w, byX).aead.keyPhase then 0
      else Opens(moves[..n], byX) + if OpensNow(Own(w, byX), Peer(w, byX), moves[n].step) then 1 else 0
  }

  /** The endpoint opens a packet that carries an acknowledgement. */
  predicate LearnsAck(x: Side, y: Side, step: Step)
    requires Enabled(x, y, step)
  {
    step.Receive? && OpenResult(x, y, step.pn, step.expired).0 == Opened && y.sent[step.pn].ack.Some?
  }

  /** The number that the endpoint last saw acknowledged. */
  ghost function LastAck(moves: seq<Move>, byX: bool): Option<nat>
    requires Run(moves).Reached?
  {
    var n := |moves| - 1;
    if n < 0 then None
    else
      LastMove(moves);
      var w := Run(moves[..n]).world;
      if moves[n].byX == byX && LearnsAck(Own(w, byX), Peer(w, byX), moves[n].step)
      then Peer(w, byX).sent[moves[n].step.pn].ack
      else LastAck(moves[..n], byX)
  }

  /** The endpoint's own fields say what it has sent. */
  ghost predicate SentCounted(x: Side) {
    && x.aead.numSent == |SentNow(x)|
    && (x.aead.firstSent == INVALID_PACKET_NUMBER <==> SentNow(x) == {})
    && (x.aead.firstSent != INVALID_PACKET_NUMBER ==> x.aead.firstSent in SentNow(x))
    && (forall n | n in SentNow(x) :: x.aead.firstSent <= n)
  }

  lemma {:induction false} RolledCounted(x: Side, y: Side, x': Side)
    requires Inv(x, y) && x'.sent == x.sent && x'.aead.keyPhase == x.aead.keyPhase + 1
    requires x'.aead.numSent == 0 && x'.aead.firstSent == INVALID_PACKET_NUMBER
    ensures SentCounted(x')
  {
    assert SentNow(x') == {};
  }

  lemma {:induction false} PollCounted(x: Side, y: Side, interval: nat)
    requires Inv(x, y) && SentCounted(x)
    ensures SentCounted(x.(aead := PollKeyPhase(x.aead, interval)))
  {
    var x' := x.(aead := PollKeyPhase(x.aead, interval));
    if x'.aead != x.aead {
      RolledCounted(x, y, x');
    }
  }

  lemma {:induction false} SealCounted(x: Side, y: Side, pn: nat, ack: Option<nat>)
    requires Inv(x, y) && SentCounted(x) && x.next <= pn
    ensures SentCounted(Sealed(x, pn, ack))
  {
    var x' := Sealed(x, pn, ack);
    assert pn !in x.sent;
    assert SentNow(x') == SentNow(x) + {pn};
  }

  lemma {:induction false} ReceiveRolls(x: Side, y: Side, pn: nat, expired: bool, x': Side)
    requires pn in y.sent && x' == Next(x, y, Receive(pn, expired))
    ensures x'.sent == x.sent
    ensures if x'.aead.keyPhase == x.aead.keyPhase
            then x'.aead.numSent == x.aead.numSent && x'.aead.firstSent == x.aead.firstSent
            else x'.aead.keyPhase == x.aead.keyPhase + 1 && x'.aead.numSent == 0
                 && x'.aead.firstSent == INVALID_PACKET_NUMBER
  {
  }

  lemma {:induction false} ReceiveCounted(x: Side, y: Side, pn: nat, expired: bool, x': Side)
    requires Inv(x, y) && SentCounted(x) && pn in y.sent && x' == Next(x, y, Receive(pn, expired))
    ensures SentCounted(x')
  {
    ReceiveRolls(x, y, pn, expired, x');
    if x'.aead.keyPhase == x.aead.keyPhase {
      assert SentNow(x') == SentNow(x);
    } else {
      RolledCounted(x, y, x');
    }
  }

  lemma {:induction false} NextCounted(x: Side, y: Side, step: Step)
    requires Inv(x, y) && SentCounted(x) && Enabled(x, y, step)
    ensures SentCounted(Next(x, y, step))
  {
    match step
    case Poll(interval) => PollCounted(x, y, interval);
    case Receive(pn, expired) => ReceiveCounted(x, y, pn, expired, Next(x, y, step));
    case Send(interval, pn, ack) =>
      PollCounted(x, y, interval);
      PollKeeps(x, y, interval);
      var x1 := x.(aead := PollKeyPhase(x.aead, interval));
      SealCounted(x1, y, pn, ack);
      assert Next(x, y, step) == Sealed(x1, pn, ack);
  }

  /** What one move does to the counter of opened packets and to the largest acknowledged number. */
  lemma {:induction false} NextOpens(x: Side, y: Side, step: Step)
    requires Inv(x, y) && Enabled(x, y, step)
    ensures var x' := Next(x, y, step);
            && x'.aead.numRcvd == (if x'.aead.keyPhase != x.aead.keyPhase then 0
                                   else x.aead.numRcvd + if OpensNow(x, y, step) then 1 else 0)
            && x'.aead.largestAcked == if LearnsAck(x, y, step) then y.sent[step.pn].ack.value else x.aead.largestAcked
  {
    if step.Receive? {
      PacketPhase(x, y, step.pn);
    }
  }

  ghost predicate AckField(a: Option<nat>, field: int) {
    if a.None? then field == INVALID_PACKET_NUMBER else field == a.value
  }

  /** Over every run the fields that decide about an update count the packets of the run. */
  lemma {:induction false} CountersExact(moves: seq<Move>, byX: bool)
    requires Run(moves).Reached?
    ensures var x := Own(Run(moves).world, byX);
            SentCounted(x) && x.aead.numRcvd == Opens(moves, byX) && AckField(LastAck(moves, byX), x.aead.largestAcked)
  {
    var n := |moves| - 1;
    if n >= 0 {
      LastMove(moves);
      CountersExact(moves[..n], byX);
      if moves[n].byX == byX {
        var w := Run(moves[..n]).world;
        NextCounted(Own(w, byX), Peer(w, byX), moves[n].step);
        NextOpens(Own(w, byX), Peer(w, byX), moves[n].step);
      }
    } else {
      assert SentNow(START) == {};
    }
  }

  /**
   * An update is due: what was last acknowledged is not older than some packet of this phase, and enough
   * packets were sent or opened in it.
   */
  ghost predicate DueFor(x: Side, lastAck: Option<nat>, opens: nat, interval: nat) {
    && lastAck.Some? && (exists n | n in SentNow(x) :: n <= lastAck.value)
    && (|SentNow(x)| >= interval || opens >= interval)
  }

  lemma {:induction false} DueExact(x: Side, lastAck: Option<nat>, opens: nat, interval: nat)
    requires SentCounted(x) && x.aead.numRcvd == opens && AckField(lastAck, x.aead.largestAcked)
    ensures ShouldUpdate(x.aead, interval) <==> DueFor(x, lastAck, opens, interval)
  {
    if UpdateAllowed(x.aead) {
      assert x.aead.firstSent in SentNow(x);
    }
  }

  ghost predicate Due(moves: seq<Move>, byX: bool, interval: nat)
    requires Run(moves).Reached?
  {
    DueFor(Own(Run(moves).world, byX), LastAck(moves, byX), Opens(moves, byX), interval)
  }

  /** The phase after asking for it, and the phase of a packet sent then. */
  ghost predicate MovesTo(x: Side, y: Side, interval: nat, pn: nat, ack: Option<nat>, phase: nat) {
    && Next(x, y, Poll(interval)).aead.keyPhase == phase
    && (Enabled(x, y, Send(interval, pn, ack)) ==>
          var x' := Next(x, y, Send(interval, pn, ack));
          x'.aead.keyPhase == phase && x'.sent == x.sent[pn := Packet(phase, ack)])
  }

  lemma {:induction false} PollMoves(x: Side, y: Side, interval: nat, pn: nat, ack: Option<nat>, due: bool)
    requires due == ShouldUpdate(x.aead, interval)
    ensures MovesTo(x, y, interval, pn, ack, x.aead.keyPhase + if due then 1 else 0)
    ensures !due ==> Next(x, y, Poll(interval)) == x
  {
  }

  /**
   * After every run, asking for the key phase moves the endpoint to the next one if an update is due, and
   * changes nothing otherwise; a packet sent then is sealed with the keys of the phase it moved to.
   */
  lemma {:induction false} UpdateExact(moves: seq<Move>, byX: bool, interval: nat, pn: nat, ack: Option<nat>)
    requires Run(moves).Reached?
    ensures var x, y := Own(Run(moves).world, byX), Peer(Run(moves).world, byX);
            var due := Due(moves, byX, interval);
            && MovesTo(x, y, interval, pn, ack, x.aead.keyPhase + if due then 1 else 0)
            && (!due ==> Next(x, y, Poll(interval)) == x)
  {
    var x, y := Own(Run(moves).world, byX), Peer(Run(moves).world, byX);
    CountersExact(moves, byX);
    DueExact(x, LastAck(moves, byX), Opens(moves, byX), interval);
    PollMoves(x, y, interval, pn, ack, Due(moves, byX, interval));
  }

  // How long the keys before the last change are kept.

  /** Since the endpoint last changed its keys, a packet arrived after the time for which it keeps the old ones. */
  ghost function Expired(moves: seq<Move>, byX: bool): bool
    requires Run(moves).Reached?
  {
    var n := |moves| - 1;
    if n < 0 then false
    else
      LastMove(moves);
      var w, w' := Run(moves[..n]).world, Run(moves).world;
      if moves[n].byX != byX then Expired(moves[..n], byX)
      else if Own(w', byX).aead.keyPhase != Own(w, byX).aead.keyPhase then false
      else Expired(moves[..n], byX) || (moves[n].step.Receive? && moves[n].step.expired)
  }

  lemma {:induction false} NextPrev(x: Side, y: Side, step: Step)
    requires Inv(x, y) && Enabled(x, y, step)
    ensures var x' := Next(x, y, step);
            && x'.aead.keyPhase in {x.aead.keyPhase, x.aead.keyPhase + 1}
            && x'.aead.prev == (if x'.aead.keyPhase != x.aead.keyPhase then Some(x.aead.keyPhase)
                                else if step.Receive? && step.expired then None
                                else x.aead.prev)
  {
  }

  ghost predicate PrevIs(a: Aead, expired: bool) {
    a.prev == if a.keyPhase == 0 || expired then None else Some(a.keyPhase - 1)
  }

  lemma {:induction false} PrevStays(x: Side, y: Side, step: Step, x': Side, before: bool, after: bool)
    requires Inv(x, y) && Enabled(x, y, step) && x' == Next(x, y, step) && PrevIs(x.aead, before)
    requires after == if x'.aead.keyPhase != x.aead.keyPhase then false
                      else before || (step.Receive? && step.expired)
    ensures PrevIs(x'.aead, after)
  {
    NextPrev(x, y, step);
  }

  /** Over every run: the previous keys are there from the first change on until they expire. */
  lemma {:induction false} PrevExact(moves: seq<Move>, byX: bool)
    requires Run(moves).Reached?
    ensures PrevIs(Own(Run(moves).world, byX).aead, Expired(moves, byX))
  {
    var n := |moves| - 1;
    if n >= 0 {
      LastMove(moves);
      PrevExact(moves[..n], byX);
      if moves[n].byX == byX {
        var w := Run(moves[..n]).world;
        PrevStays(Own(w, byX), Peer(w, byX), moves[n].step, Own(Run(moves).world, byX), Expired(moves[..n], byX),
                  Expired(moves, byX));
      }
    }
  }

  /**
   * After every run, exactly these packets of the peer open: those of the current phase, of the next one, and,
   * until the old keys expire, of the previous one.
   */
  lemma {:induction false} OpensExactly(moves: seq<Move>, byX: bool, pn: nat, expired: bool)
    requires Run(moves).Reached? && pn in Peer(Run(moves).world, byX).sent
    ensures var x, y := Own(Run(moves).world, byX), Peer(Run(moves).world, byX);
            var phase := y.sent[pn].sealed;
            OpenResult(x, y, pn, expired).0 == Opened
            <==> || phase == x.aead.keyPhase || phase == x.aead.keyPhase + 1
                 || (phase + 1 == x.aead.keyPhase && !expired && !Expired(moves, byX))
  {
    PrevExact(moves, byX);
    OpenExact(Own(Run(moves).world, byX), Peer(Run(moves).world, byX), pn, expired);
  }
}
