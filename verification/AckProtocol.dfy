/** Acknowledgements end to end, in one packet number space. */
module AckProtocol {
  // A sender, a peer that receives and acknowledges honestly, and a network that loses, repeats and
  // reorders packets and ACK frames. The sender's other spaces may see any traffic.

  import opened Protocol
  import opened AckRanges
  import opened AckScan
  import opened PacketSeqs
  import opened SentPackets
  import Runs = SentPacketRuns
  import RH = ReceivedHistory
  import PNG = PacketNumberGenerator

  /** packets: the numbers sent in this space; received: those the peer got; acks: the ACKs it ever sent. */
  datatype System = System(
    sender: Runs.World,
    packets: set<int>,
    received: set<int>,
    peer: RH.History,
    acks: set<seq<AckRange>>)

  datatype Step =
    | Other(step: Runs.Step)
    | Receive(pn: int)
    | Forget(below: int)
    | SendAck(ranges: nat)
    | DeliverAck(r: seq<AckRange>, lostSendTime: int, lossDelay: int)

  /** Any step of the sender but an ACK in this space, which only the peer can cause. */
  ghost predicate Enabled(sys: System, level: Level, step: Step) {
    match step
    case Other(step) => Runs.Enabled(sys.sender.s, step) && !(step.Ack? && step.level == level)
    case Receive(pn) => pn in sys.packets
    case Forget(_) => true
    case SendAck(k) => 0 < k <= |sys.peer.ranges|
    case DeliverAck(r, _, _) => r in sys.acks && GetSpace(sys.sender.s, level).Some?
  }

  /**
   * A Retry makes the client start over under new keys with a server that kept no state, so what was
   * in the Initial space before no longer counts.
   */
  ghost function Next(sys: System, level: Level, step: Step): System
    requires Enabled(sys, level, step)
    requires step.DeliverAck? ==> Valid(step.r)
  {
    match step
    case Other(st) =>
      var sys' := sys.(sender := Runs.Next(sys.sender, st));
      if st.Send? && st.level == level then
        sys'.(packets := sys.packets + {GetSpace(sys.sender.s, level).value.numbers.next})
      else if st.Retry? && level == InitialLevel then
        sys'.(packets := {}, received := {}, peer := RH.EMPTY, acks := {})
      else sys'
    case Receive(pn) => sys.(received := sys.received + {pn}, peer := RH.Receive(sys.peer, pn))
    case Forget(below) => sys.(peer := RH.DeleteBelow(sys.peer, below))
    case SendAck(k) => FromHistoryLength(sys.peer.ranges); sys.(acks := sys.acks + {FromHistory(sys.peer.ranges)[..k]})
    case DeliverAck(r, t, d) => sys.(sender := Runs.Next(sys.sender, Runs.Ack(level, r, t, d)))
  }

  /** The numbers sent were handed out by the generator and not skipped. */
  ghost predicate Genuine(space: Space, packets: set<int>) {
    forall pn | pn in packets :: 0 <= pn <= space.largestSent && pn !in space.numbers.history
  }

  ghost predicate Backed(r: seq<AckRange>, received: set<int>) {
    forall x | Acks(r, x) :: x in received
  }

  ghost predicate Inv(sys: System, level: Level) {
    && Runs.Inv(sys.sender)
    && (GetSpace(sys.sender.s, level).Some? ==> Genuine(GetSpace(sys.sender.s, level).value, sys.packets))
    && sys.received <= sys.packets
    && RH.WellFormed(sys.peer.ranges)
    && (forall x | RH.In(sys.peer.ranges, x) :: x in sys.received)
    && (forall r | r in sys.acks :: Valid(r) && Backed(r, sys.received))
  }

  /** Only sending and Retry touch the packet numbers of a space. */
  lemma {:induction false} Quiet(w: Runs.World, level: Level, step: Runs.Step)
    requires Runs.Enabled(w.s, step) && !(step.Send? && step.level == level) && !(step.Retry? && level == InitialLevel)
    ensures var before, after := GetSpace(w.s, level), GetSpace(Runs.Next(w, step).s, level);
            after.Some? ==>
              && before.Some?
              && after.value.numbers == before.value.numbers
              && after.value.largestSent == before.value.largestSent
  {
  }

  lemma {:induction false} SendGenuine(space: Space, packets: set<int>, step: Runs.Step)
    requires step.Send? && Runs.SpaceOk(space) && Genuine(space, packets)
    ensures Genuine(Runs.SentSpace(space, step), packets + {space.numbers.next})
  {
    PNG.PopInv(space.numbers, step.random);
  }

  lemma {:induction false} OtherKeeps(sys: System, level: Level, step: Runs.Step)
    requires Inv(sys, level) && Enabled(sys, level, Other(step))
    ensures Inv(Next(sys, level, Other(step)), level)
  {
    Runs.StepInv(sys.sender, step);
    if step.Send? && step.level == level {
      var space := GetSpace(sys.sender.s, level).value;
      SendGenuine(space, sys.packets, step);
      assert GetSpace(Runs.Next(sys.sender, step).s, level) == Some(Runs.SentSpace(space, step));
    } else if !(step.Retry? && level == InitialLevel) {
      Quiet(sys.sender, level, step);
    } else {
      EmptyHolds();
    }
  }

  lemma {:induction false} EmptyHolds()
    ensures RH.WellFormed(RH.EMPTY.ranges) && forall x :: !RH.In(RH.EMPTY.ranges, x)
  {
  }

  /** Receiving a packet or deleting old ranges keeps the history within what was received. */
  lemma {:induction false} HistoryKeeps(h: RH.History, received: set<int>, p: int)
    requires RH.WellFormed(h.ranges) && forall x | RH.In(h.ranges, x) :: x in received
    ensures RH.WellFormed(RH.Receive(h, p).ranges) && RH.WellFormed(RH.DeleteBelow(h, p).ranges)
    ensures forall x | RH.In(RH.Receive(h, p).ranges, x) :: x in received + {p}
    ensures forall x | RH.In(RH.DeleteBelow(h, p).ranges, x) :: x in received
  {
    RH.AddExact(h.ranges, p);
    RH.LimitExact(RH.Add(h.ranges, p));
    RH.CutExact(h.ranges, p);
  }

  lemma {:induction false} SendAckKeeps(h: seq<RH.Range>, received: set<int>, k: nat)
    requires RH.WellFormed(h) && 0 < k <= |h| && forall x | RH.In(h, x) :: x in received
    ensures |FromHistory(h)| == |h| && Valid(FromHistory(h)[..k]) && Backed(FromHistory(h)[..k], received)
  {
    FromHistoryValid(h);
    PrefixValid(FromHistory(h), k);
  }

  lemma {:induction false} BackedGrows(r: seq<AckRange>, received: set<int>, pn: int)
    requires Backed(r, received)
    ensures Backed(r, received + {pn})
  {
  }

  lemma {:induction false} ReceiveKeeps(sys: System, level: Level, pn: int)
    requires Inv(sys, level) && pn in sys.packets
    ensures Inv(Next(sys, level, Receive(pn)), level)
  {
    HistoryKeeps(sys.peer, sys.received, pn);
    forall r | r in sys.acks ensures Backed(r, sys.received + {pn}) {
      BackedGrows(r, sys.received, pn);
    }
  }

  lemma {:induction false} StepKeeps(sys: System, level: Level, step: Step)
    requires Inv(sys, level) && Enabled(sys, level, step)
    ensures step.DeliverAck? ==> Valid(step.r)
    ensures Inv(Next(sys, level, step), level)
  {
    match step
    case Other(st) => OtherKeeps(sys, level, st);
    case Receive(pn) => ReceiveKeeps(sys, level, pn);
    case Forget(below) => HistoryKeeps(sys.peer, sys.received, below);
    case SendAck(k) => SendAckKeeps(sys.peer.ranges, sys.received, k);
    case DeliverAck(r, t, d) =>
      Runs.StepInv(sys.sender, Runs.Ack(level, r, t, d));
      Quiet(sys.sender, level, Runs.Ack(level, r, t, d));
  }

  datatype Outcome = Failed | Reached(sys: System)

  /** The system after a run, unless a step was not possible. */
  ghost function Run(level: Level, initialPN: nat, random: nat, steps: seq<Step>): (o: Outcome)
    ensures o.Reached? ==> Inv(o.sys, level)
  {
    if |steps| == 0 then
      EmptyHolds();
      Reached(System(Runs.Start(initialPN, random), {}, {}, RH.EMPTY, {}))
    else
      var before := Run(level, initialPN, random, steps[..|steps| - 1]);
      var step := steps[|steps| - 1];
      if before.Failed? || !Enabled(before.sys, level, step) then Failed
      else
        StepKeeps(before.sys, level, step);
        Reached(Next(before.sys, level, step))
  }

  lemma {:induction false} HonestAck(space: Space, packets: set<int>, received: set<int>, r: seq<AckRange>)
    requires Genuine(space, packets) && received <= packets && Valid(r) && Backed(r, received)
    ensures r[0].largest <= space.largestSent && PNG.Validate(space.numbers, r)
    ensures forall p | p in space.history && AcksPacket(r, p.pn) :: p.pn in received
  {
    assert Acks(r, r[0].largest);
    forall i | 0 <= i < |space.numbers.history| ensures !AcksPacket(r, space.numbers.history[i]) {
      AcksPacketExact(r, space.numbers.history[i]);
    }
    forall p | p in space.history && AcksPacket(r, p.pn) ensures p.pn in received {
      AcksPacketExact(r, p.pn);
    }
  }

  /**
   * However packets and ACKs are lost, repeated and reordered, no ACK of an honest peer is ever refused
   * as malformed, as acknowledging an unsent packet or as acknowledging a skipped number, and a packet it
   * newly acknowledges was really received.
   */
  lemma {:induction false} AcksSound(level: Level, initialPN: nat, random: nat, steps: seq<Step>, r: seq<AckRange>,
                                     t: int, d: int, p: Packet)
    requires var o := Run(level, initialPN, random, steps);
             o.Reached? && r in o.sys.acks && GetSpace(o.sys.sender.s, level).Some?
    ensures var sys := Run(level, initialPN, random, steps).sys;
            && Valid(r)
            && ReceivedAck(sys.sender.s, level, r, t, d).0 == AckOk
            && (p in Acked(Runs.Tracked(sys.sender.s, level), r) ==> p.pn in sys.received)
  {
    var sys := Run(level, initialPN, random, steps).sys;
    var space := GetSpace(sys.sender.s, level).value;
    HonestAck(space, sys.packets, sys.received, r);
    AckedSetExact(space.history, r);
    WithoutMember(space.history, AckedSet(space.history, r), p);
  }
}
