/** Two honest endpoints updating their keys over an unreliable network (section 6 of RFC 9001). */
module KeyUpdateProtocol {
  import opened Protocol
  import opened KeyUpdate

  /** A 1-RTT packet: the phase of the keys it is sealed with, and the largest packet number it acknowledges. */
  datatype Packet = Packet(sealed: nat, ack: Option<nat>)

  /** An endpoint, every packet it has sent (by packet number), and the peer's packets it has opened. */
  datatype Side = Side(aead: Aead, next: nat, sent: map<nat, Packet>, received: set<nat>)

  datatype World = World(x: Side, y: Side)

  const START := Side(NEW, 0, map[], {})

  datatype Step =
    | Poll(interval: nat)                                  // ask for the key phase without sending
    | Send(interval: nat, pn: nat, ack: Option<nat>)       // pn may skip numbers; an ACK names a received packet
    | Receive(pn: nat, expired: bool)                      // any packet the peer ever sent, any number of times

  predicate Enabled(x: Side, y: Side, step: Step) {
    match step
    case Poll(_) => true
    case Send(_, pn, ack) => x.next <= pn && (ack.Some? ==> ack.value in x.received)
    case Receive(pn, _) => pn in y.sent
  }

  /** The result of x opening packet pn of y. */
  function OpenResult(x: Side, y: Side, pn: nat, expired: bool): (Result, Aead)
    requires pn in y.sent
  {
    Open(x.aead, expired, pn, Bit(y.sent[pn].sealed), y.sent[pn].sealed)
  }

  function Next(x: Side, y: Side, step: Step): Side
    requires Enabled(x, y, step)
  {
    match step
    case Poll(interval) => x.(aead := PollKeyPhase(x.aead, interval))
    case Send(interval, pn, ack) =>
      var a := PollKeyPhase(x.aead, interval);
      Side(Seal(a, pn), pn + 1, x.sent[pn := Packet(a.keyPhase, ack)], x.received)
    case Receive(pn, expired) =>
      var (r, a) := OpenResult(x, y, pn, expired);
      var ack := y.sent[pn].ack;
      if r == Opened then
        x.(aead := if ack.Some? then a.(largestAcked := ack.value) else a, received := x.received + {pn})
      else x.(aead := a)
  }

  /** Later packets are not sealed with older keys. */
  ghost predicate Ordered(sent: map<nat, Packet>, m: nat, n: nat)
    requires m in sent && n in sent
  {
    m <= n ==> sent[m].sealed <= sent[n].sealed
  }

  ghost predicate SentOk(x: Side) {
    && (forall n | n in x.sent :: n < x.next && x.sent[n].sealed <= x.aead.keyPhase)
    && (forall m, n | m in x.sent && n in x.sent :: Ordered(x.sent, m, n))
    && if x.aead.firstSent == INVALID_PACKET_NUMBER
       then forall n | n in x.sent :: x.sent[n].sealed < x.aead.keyPhase
       else x.aead.firstSent >= 0 && x.aead.firstSent in x.sent && x.sent[x.aead.firstSent].sealed == x.aead.keyPhase
  }

  ghost predicate ReceivedOk(x: Side, y: Side) {
    && (forall n | n in x.received :: n in y.sent && y.sent[n].sealed <= x.aead.keyPhase)
    && if x.aead.firstRcvd == INVALID_PACKET_NUMBER
       then forall n | n in x.received :: y.sent[n].sealed < x.aead.keyPhase
       else && x.aead.firstRcvd >= 0 && x.aead.firstRcvd in x.received
            && y.sent[x.aead.firstRcvd].sealed == x.aead.keyPhase
  }

  /** A packet acknowledges only what its sender has opened, and is sealed no earlier than what it acknowledges. */
  ghost predicate AcksOk(x: Side, y: Side) {
    && (forall n | n in x.sent && x.sent[n].ack.Some? ::
          && x.sent[n].ack.value in x.received && x.sent[n].ack.value in y.sent
          && y.sent[x.sent[n].ack.value].sealed <= x.sent[n].sealed)
    && (x.aead.largestAcked != INVALID_PACKET_NUMBER ==>
          x.aead.largestAcked >= 0 &&
          exists q | q in x.received && q in y.sent :: y.sent[q].ack == Some(x.aead.largestAcked))
  }

  ghost predicate PhasesOk(x: Side, y: Side) {
    && x.aead.keyPhase <= y.aead.keyPhase + 1
    && (y.aead.keyPhase == x.aead.keyPhase + 1 ==>
          x.aead.firstSent != INVALID_PACKET_NUMBER && x.aead.firstRcvd != INVALID_PACKET_NUMBER)
    && (x.aead.prev.Some? ==> x.aead.prev.value + 1 == x.aead.keyPhase)
  }

  /** What x relies on. */
  ghost predicate Half(x: Side, y: Side) {
    SentOk(x) && ReceivedOk(x, y) && AcksOk(x, y) && PhasesOk(x, y)
  }

  ghost predicate Inv(x: Side, y: Side) {
    Half(x, y) && Half(y, x)
  }

  /** Why an endpoint may update: the peer has opened a packet of this phase and answered in it. */
  lemma {:induction false} PeerCaughtUp(x: Side, y: Side)
    requires Inv(x, y) && UpdateAllowed(x.aead)
    ensures y.aead.keyPhase >= x.aead.keyPhase
    ensures y.aead.keyPhase == x.aead.keyPhase ==>
              y.aead.firstSent != INVALID_PACKET_NUMBER && y.aead.firstRcvd != INVALID_PACKET_NUMBER
  {
    var la := x.aead.largestAcked;
    var q :| q in x.received && q in y.sent && y.sent[q].ack == Some(la);
    assert la in y.received && x.sent[la].sealed <= y.sent[q].sealed;
    assert Ordered(x.sent, x.aead.firstSent, la);
  }

  lemma {:induction false} RollKeeps(x: Side, y: Side)
    requires Inv(x, y) && UpdateAllowed(x.aead)
    ensures Inv(x.(aead := RollKeys(x.aead)), y)
  {
    PeerCaughtUp(x, y);
  }

  lemma {:induction false} PollKeeps(x: Side, y: Side, interval: nat)
    requires Inv(x, y)
    ensures Inv(x.(aead := PollKeyPhase(x.aead, interval)), y)
  {
    if ShouldUpdate(x.aead, interval) {
      RollKeeps(x, y);
    }
  }

  function Sealed(x: Side, pn: nat, ack: Option<nat>): Side {
    Side(Seal(x.aead, pn), pn + 1, x.sent[pn := Packet(x.aead.keyPhase, ack)], x.received)
  }

  lemma {:induction false} SealKeeps(x: Side, y: Side, pn: nat, ack: Option<nat>)
    requires Inv(x, y) && x.next <= pn && (ack.Some? ==> ack.value in x.received)
    ensures Inv(Sealed(x, pn, ack), y)
  {
    var x' := Sealed(x, pn, ack);
    assert pn !in x.sent;
    forall m, n | m in x'.sent && n in x'.sent ensures Ordered(x'.sent, m, n) {
      assert m in x.sent && n in x.sent ==> Ordered(x.sent, m, n);
    }
  }

  /** What an endpoint can conclude about a packet of the peer from its number. */
  lemma {:induction false} PacketPhase(x: Side, y: Side, pn: nat)
    requires Inv(x, y) && pn in y.sent
    ensures y.sent[pn].sealed <= x.aead.keyPhase + 1
    ensures x.aead.firstRcvd == INVALID_PACKET_NUMBER || pn < x.aead.firstRcvd ==> y.sent[pn].sealed <= x.aead.keyPhase
    ensures x.aead.firstRcvd != INVALID_PACKET_NUMBER && pn >= x.aead.firstRcvd ==> y.sent[pn].sealed >= x.aead.keyPhase
    ensures y.sent[pn].sealed == x.aead.keyPhase + 1 ==> x.aead.firstSent != INVALID_PACKET_NUMBER
  {
    if x.aead.firstRcvd != INVALID_PACKET_NUMBER {
      assert Ordered(y.sent, x.aead.firstRcvd, pn) && Ordered(y.sent, pn, x.aead.firstRcvd);
    }
  }

  lemma {:induction false} ReceiveKeeps(x: Side, y: Side, pn: nat, expired: bool)
    requires Inv(x, y) && pn in y.sent
    ensures Inv(Next(x, y, Receive(pn, expired)), y)
  {
    PacketPhase(x, y, pn);
    var (r, a) := OpenResult(x, y, pn, expired);
    if r == Opened && y.sent[pn].sealed == x.aead.keyPhase + 1 {
      FollowKeeps(x, y, pn, expired);
    } else {
      StayHalf(x, y, pn, expired, Next(x, y, Receive(pn, expired)));
      StayOther(x, y, pn, expired, Next(x, y, Receive(pn, expired)));
    }
  }

  /** Opening a packet with the current or the previous keys, or not at all: what x relies on. */
  lemma {:induction false} StayHalf(x: Side, y: Side, pn: nat, expired: bool, x': Side)
    requires Inv(x, y) && pn in y.sent && x' == Next(x, y, Receive(pn, expired))
    requires !(OpenResult(x, y, pn, expired).0 == Opened && y.sent[pn].sealed == x.aead.keyPhase + 1)
    ensures Half(x', y)
  {
    PacketPhase(x, y, pn);
  }

  /** The same for the other side. */
  lemma {:induction false} StayOther(x: Side, y: Side, pn: nat, expired: bool, x': Side)
    requires Inv(x, y) && pn in y.sent && x' == Next(x, y, Receive(pn, expired))
    requires !(OpenResult(x, y, pn, expired).0 == Opened && y.sent[pn].sealed == x.aead.keyPhase + 1)
    ensures Half(y, x')
  {
    PacketPhase(x, y, pn);
  }

  /** Opening a packet with the next keys. */
  lemma {:induction false} FollowKeeps(x: Side, y: Side, pn: nat, expired: bool)
    requires Inv(x, y) && pn in y.sent
    requires OpenResult(x, y, pn, expired).0 == Opened && y.sent[pn].sealed == x.aead.keyPhase + 1
    ensures Inv(Next(x, y, Receive(pn, expired)), y)
  {
    PacketPhase(x, y, pn);
  }

  lemma {:induction false} NextKeeps(x: Side, y: Side, step: Step)
    requires Inv(x, y) && Enabled(x, y, step)
    ensures Inv(Next(x, y, step), y)
  {
    match step
    case Poll(interval) => PollKeeps(x, y, interval);
    case Receive(pn, expired) => ReceiveKeeps(x, y, pn, expired);
    case Send(interval, pn, ack) =>
      PollKeeps(x, y, interval);
      var x1 := x.(aead := PollKeyPhase(x.aead, interval));
      SealKeeps(x1, y, pn, ack);
      assert Next(x, y, step) == Sealed(x1, pn, ack);
  }

  datatype Move = Move(byX: bool, step: Step)

  datatype Outcome = Failed | Reached(world: World)

  /** The two endpoints after any sequence of moves, if each was possible. */
  ghost function Run(moves: seq<Move>): (o: Outcome)
    ensures o.Reached? ==> Inv(o.world.x, o.world.y)
  {
    if |moves| == 0 then Reached(World(START, START))
    else
      var move := moves[|moves| - 1];
      match Run(moves[..|moves| - 1])
      case Failed => Failed
      case Reached(World(x, y)) =>
        if move.byX && Enabled(x, y, move.step) then
          NextKeeps(x, y, move.step);
          Reached(World(Next(x, y, move.step), y))
        else if !move.byX && Enabled(y, x, move.step) then
          NextKeeps(y, x, move.step);
          Reached(World(x, Next(y, x, move.step)))
        else Failed
  }

  /** Lockstep: the key phases never differ by more than one. */
  lemma {:induction false} Lockstep(moves: seq<Move>)
    requires Run(moves).Reached?
    ensures var World(x, y) := Run(moves).world;
            x.aead.keyPhase <= y.aead.keyPhase + 1 && y.aead.keyPhase <= x.aead.keyPhase + 1
  {
  }

  /** Exactly which packets of the peer x can open in any state, and that none makes it close the connection. */
  lemma {:induction false} OpenExact(x: Side, y: Side, pn: nat, expired: bool)
    requires Inv(x, y) && pn in y.sent
    ensures var r, phase := OpenResult(x, y, pn, expired).0, y.sent[pn].sealed;
            && r != WrongInitialKeyPhase && r != UpdatedTooQuickly
            && (r == Opened <==>
                  || phase == x.aead.keyPhase
                  || phase == x.aead.keyPhase + 1
                  || (phase + 1 == x.aead.keyPhase && x.aead.prev.Some? && !expired))
            && (phase + 1 == x.aead.keyPhase && r != Opened ==> r == KeysDropped)
  {
    PacketPhase(x, y, pn);
  }

  /**
   * A packet with the other phase bit that is not older than the first one received in this phase was
   * sealed with the next keys: it opens, and opening it moves the endpoint to the next phase.
   */
  lemma {:induction false} NextKeyOpens(x: Side, y: Side, pn: nat, expired: bool)
    requires Inv(x, y) && pn in y.sent
    requires Bit(y.sent[pn].sealed) != Bit(x.aead.keyPhase)
    requires x.aead.firstRcvd != INVALID_PACKET_NUMBER && pn >= x.aead.firstRcvd
    ensures OpenResult(x, y, pn, expired).0 == Opened
    ensures OpenResult(x, y, pn, expired).1.keyPhase == y.sent[pn].sealed == x.aead.keyPhase + 1
  {
    PacketPhase(x, y, pn);
  }

  /** Over all runs: no packet of an honest peer is ever a protocol violation, whichever side opens it. */
  lemma {:induction false} NoProtocolViolation(moves: seq<Move>, pn: nat, expired: bool)
    requires Run(moves).Reached?
    ensures var World(x, y) := Run(moves).world;
            && (pn in y.sent ==> OpenResult(x, y, pn, expired).0 in {Opened, DecryptionFailed, KeysDropped})
            && (pn in x.sent ==> OpenResult(y, x, pn, expired).0 in {Opened, DecryptionFailed, KeysDropped})
  {
    var World(x, y) := Run(moves).world;
    if pn in y.sent {
      OpenExact(x, y, pn, expired);
    }
    if pn in x.sent {
      OpenExact(y, x, pn, expired);
    }
  }
}
