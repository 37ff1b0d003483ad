/** Tracking sent packets in three packet number spaces (quic-go/core/ackhandler/sent_packet_handler.go). */
module SentPackets {
  import opened Protocol
  import opened AckRanges
  import opened PacketSeqs
  import opened AckScan
  import PNG = PacketNumberGenerator

  datatype Space = Space(history: seq<Packet>, numbers: PNG.Generator, largestAcked: int, largestSent: int,
                         lossTime: Option<int>)

  function NewSpace(initialPN: int, random: nat): Space {
    Space([], PNG.New(initialPN, random), INVALID_PACKET_NUMBER, INVALID_PACKET_NUMBER, None)
  }

  /** How a tracked packet leaves the history. */
  datatype Fate = FateAcked | FateLost | FateProbed | FateDropped | FateReset

  /** A packet left the history; acknowledged packets fire OnAcked, dropped ones nothing, all others OnLost. */
  datatype Event = Event(level: Level, pn: int, fate: Fate)

  function Events(level: Level, h: seq<Packet>, fate: Fate): seq<Event> {
    seq(|h|, i requires 0 <= i < |h| => Event(level, h[i].pn, fate))
  }

  datatype Handler = Handler(
    initial: Option<Space>,
    handshake: Option<Space>,
    oneRtt: Space,
    bytesInFlight: int,
    lowestNotConfirmedAcked: int,
    ptoCount: nat,
    numProbesToSend: nat,
    log: seq<Event>)

  function GetSpace(s: Handler, level: Level): Option<Space> {
    match level
    case InitialLevel => s.initial
    case HandshakeLevel => s.handshake
    case OneRttLevel => Some(s.oneRtt)
  }

  function SetSpace(s: Handler, level: Level, space: Space): Handler {
    match level
    case InitialLevel => s.(initial := Some(space))
    case HandshakeLevel => s.(handshake := Some(space))
    case OneRttLevel => s.(oneRtt := space)
  }

  /** Takes the next packet number and registers the packet sent with it (lines 123-170, 472-474). */
  function Sent(s: Handler, level: Level, random: nat, length: nat, sendTime: int, acks: int,
                ackEliciting: bool): Handler
    requires GetSpace(s, level).Some?
  {
    var space := GetSpace(s, level).value;
    var (pn, numbers) := PNG.Pop(space.numbers, random);
    var space' := space.(numbers := numbers, largestSent := pn);
    if ackEliciting then
      SetSpace(s, level, space'.(history := space.history + [Packet(pn, length, sendTime, acks)]))
        .(bytesInFlight := s.bytesInFlight + length,
          numProbesToSend := if s.numProbesToSend > 0 then s.numProbesToSend - 1 else 0)
    else SetSpace(s, level, space')
  }

  /** Takes the packets `gone`, all tracked in this space, out of the history. */
  function Take(s: Handler, level: Level, gone: seq<Packet>, fate: Fate): Handler
    requires GetSpace(s, level).Some?
  {
    var space := GetSpace(s, level).value;
    SetSpace(s, level, space.(history := Without(space.history, PnSet(gone))))
      .(bytesInFlight := s.bytesInFlight - Sum(gone), log := s.log + Events(level, gone, fate))
  }

  function PnSet(h: seq<Packet>): set<int> {
    set i | 0 <= i < |h| :: h[i].pn
  }

  function ConfirmedAcked(lowest: int, acked: seq<Packet>): int {
    if |acked| == 0 then lowest
    else
      var last := acked[|acked| - 1];
      var before := ConfirmedAcked(lowest, acked[..|acked| - 1]);
      if last.largestAcked != INVALID_PACKET_NUMBER then Max(before, last.largestAcked + 1) else before
  }

  /** Declares packets lost by number or time and sets the loss timer (lines 336-402). */
  function DetectLost(s: Handler, level: Level, lostSendTime: int, lossDelay: int): Handler
    requires GetSpace(s, level).Some?
  {
    var space := GetSpace(s, level).value;
    var lost := Lost(space.history, space.largestAcked, lostSendTime);
    var timer := LossTime(space.history, space.largestAcked, lostSendTime, lossDelay);
    Take(SetSpace(s, level, space.(lossTime := timer)), level, lost, FateLost)
  }

  datatype AckResult = AckOk | UnsentPacket | SkippedPacket

  /** Processes an ACK frame (lines 172-230). */
  function ReceivedAck(s: Handler, level: Level, r: seq<AckRange>, lostSendTime: int, lossDelay: int): 
    (AckResult, Handler)
    requires GetSpace(s, level).Some? && |r| > 0
  {
    var space := GetSpace(s, level).value;
    if r[0].largest > space.largestSent then (UnsentPacket, s)
    else
      var s1 := SetSpace(s, level, space.(largestAcked := Max(space.largestAcked, r[0].largest)));
      if !PNG.Validate(space.numbers, r) then (SkippedPacket, s1)
      else
        var acked := Acked(space.history, r);
        if |acked| == 0 then (AckOk, s1)
        else
          var s2 := Take(s1, level, acked, FateAcked);
          var lowest := ConfirmedAcked(s.lowestNotConfirmedAcked, acked);
          var s3 := if level.OneRttLevel? then s2.(lowestNotConfirmedAcked := lowest) else s2;
          (AckOk, DetectLost(s3, level, lostSendTime, lossDelay).(ptoCount := 0, numProbesToSend := 0))
  }

  /** Whether the first time replaces the second as the earliest one. */
  predicate Sooner(time: Option<int>, earliest: Option<int>) {
    earliest.None? || (time.Some? && time.value < earliest.value)
  }

  /** The space whose loss timer fires first, as the source picks it (lines 284-301). */
  function EarliestLossTime(s: Handler): (Option<int>, Level) {
    var a: (Option<int>, Level) :=
      if s.initial.Some? then (s.initial.value.lossTime, InitialLevel) else (None, OneRttLevel);
    var b :=
      if s.handshake.Some? && Sooner(s.handshake.value.lossTime, a.0)
      then (s.handshake.value.lossTime, HandshakeLevel)
      else a;
    if Sooner(s.oneRtt.lossTime, b.0) then (s.oneRtt.lossTime, OneRttLevel) else b
  }

  predicate HasOutstanding(s: Handler) {
    || |s.oneRtt.history| > 0
    || (s.initial.Some? && |s.initial.value.history| > 0)
    || (s.handshake.Some? && |s.handshake.value.history| > 0)
  }

  /** The loss timer or a probe timeout fires (lines 404-435). */
  function Timeout(s: Handler, lostSendTime: int, lossDelay: int): Handler {
    if !HasOutstanding(s) then s
    else
      var (time, level) := EarliestLossTime(s);
      if time.Some? then DetectLost(s, level, lostSendTime, lossDelay)
      else s.(ptoCount := s.ptoCount + 1, numProbesToSend := s.numProbesToSend + 2)
  }

  /** The space of the first outstanding packet, Initial packets before Handshake before 1-RTT ones. */
  function ProbeLevel(s: Handler): Option<Level> {
    if s.initial.Some? && |s.initial.value.history| > 0 then Some(InitialLevel)
    else if s.handshake.Some? && |s.handshake.value.history| > 0 then Some(HandshakeLevel)
    else if |s.oneRtt.history| > 0 then Some(OneRttLevel)
    else None
  }

  /** Queues the frames of the first outstanding packet for a probe (lines 530-555). */
  function QueueProbe(s: Handler): (bool, Handler) {
    match ProbeLevel(s)
    case None => (false, s)
    case Some(level) => (true, Take(s, level, GetSpace(s, level).value.history[..1], FateProbed))
  }

  /** Drops a packet number space with its keys (lines 103-121). */
  function DropSpace(s: Handler, level: Level): Handler
    requires !level.OneRttLevel? && GetSpace(s, level).Some?
  {
    var h := GetSpace(s, level).value.history;
    var s' := s.(bytesInFlight := s.bytesInFlight - Sum(h), log := s.log + Events(level, h, FateDropped));
    if level.InitialLevel? then s'.(initial := None) else s'.(handshake := None)
  }

  /** Starts over after a Retry, keeping only the packet number (lines 563-572). */
  function ResetForRetry(s: Handler, random: nat): Handler
    requires s.initial.Some?
  {
    var h, pn := s.initial.value.history, PNG.Pop(s.initial.value.numbers, random).0;
    s.(bytesInFlight := 0, initial := Some(NewSpace(pn, random)), log := s.log + Events(InitialLevel, h, FateReset))
  }

  class SentPacketHandler {
    var initialPackets: Option<Space>
    var handshakePackets: Option<Space>
    var oneRttPackets: Space
    var bytesInFlight: int
    var lowestNotConfirmedAcked: int
    var ptoCount: nat
    var numProbesToSend: nat
    var events: seq<Event>

    ghost function State(): Handler
      reads this
    {
      Handler(initialPackets, handshakePackets, oneRttPackets, bytesInFlight, lowestNotConfirmedAcked,
              ptoCount, numProbesToSend, events)
    }

    constructor (initialPN: int, random: nat)
      ensures State()
              == Handler(Some(NewSpace(initialPN, random)), Some(NewSpace(0, random)), NewSpace(0, random),
                         0, 0, 0, 0, [])
    {
      initialPackets, handshakePackets := Some(NewSpace(initialPN, random)), Some(NewSpace(0, random));
      oneRttPackets := NewSpace(0, random);
      bytesInFlight, lowestNotConfirmedAcked, ptoCount, numProbesToSend, events := 0, 0, 0, 0, [];
    }

    method GetPacketNumberSpace(level: Level) returns (space: Space)
      requires GetSpace(State(), level).Some?
      ensures Some(space) == GetSpace(State(), level)
    {
      match level
      case InitialLevel => space := initialPackets.value;
      case HandshakeLevel => space := handshakePackets.value;
      case OneRttLevel => space := oneRttPackets;
    }

    method PutPacketNumberSpace(level: Level, space: Space)
      modifies this`initialPackets, this`handshakePackets, this`oneRttPackets
      ensures State() == SetSpace(old(State()), level, space)
    {
      match level
      case InitialLevel => initialPackets := Some(space);
      case HandshakeLevel => handshakePackets := Some(space);
      case OneRttLevel => oneRttPackets := space;
    }

    method SentPacket(level: Level, random: nat, length: nat, sendTime: int, acks: int, ackEliciting: bool)
      requires GetSpace(State(), level).Some?
      modifies this
      ensures State() == Sent(old(State()), level, random, length, sendTime, acks, ackEliciting)
    {
      var space := GetPacketNumberSpace(level);
      var (pn, numbers) := PNG.Pop(space.numbers, random);
      space := space.(numbers := numbers, largestSent := pn);
      if ackEliciting {
        bytesInFlight := bytesInFlight + length;
        if numProbesToSend > 0 {
          numProbesToSend := numProbesToSend - 1;
        }
        space := space.(history := space.history + [Packet(pn, length, sendTime, acks)]);
      }
      PutPacketNumberSpace(level, space);
    }

    /** Fires the callbacks of the packets and removes them one by one (lines 380-387, 441-456). */
    method Remove(level: Level, gone: seq<Packet>, fate: Fate)
      requires GetSpace(State(), level).Some?
      modifies this
      ensures State() == Take(old(State()), level, gone, fate)
    {
      var space := GetPacketNumberSpace(level);
      var h := space.history;
      NoneSelected(h, PnSet(gone[..0]));
      for i := 0 to |gone|
        invariant h == Without(space.history, PnSet(gone[..i]))
        invariant bytesInFlight == old(bytesInFlight) - Sum(gone[..i])
        invariant events == old(events) + Events(level, gone[..i], fate)
        invariant State() == old(State()).(bytesInFlight := bytesInFlight, log := events)
      {
        TakeNext(space.history, gone, i, level, fate);
        events := events + [Event(level, gone[i].pn, fate)];
        bytesInFlight := bytesInFlight - gone[i].length;
        h := Without(h, {gone[i].pn});
      }
      assert gone[..|gone|] == gone;
      PutPacketNumberSpace(level, space.(history := h));
    }

    method DetectLostPackets(level: Level, lostSendTime: int, lossDelay: int)
      requires GetSpace(State(), level).Some? && Increasing(GetSpace(State(), level).value.history)
      modifies this
      ensures State() == DetectLost(old(State()), level, lostSendTime, lossDelay)
    {
      var space := GetPacketNumberSpace(level);
      var lost, timer := FindLost(space.history, space.largestAcked, lostSendTime, lossDelay);
      PutPacketNumberSpace(level, space.(lossTime := timer));
      Remove(level, lost, FateLost);
    }

    method ConfirmAcked(level: Level, acked: seq<Packet>)
      modifies this`lowestNotConfirmedAcked
      ensures lowestNotConfirmedAcked
              == if level.OneRttLevel?
                 then ConfirmedAcked(old(lowestNotConfirmedAcked), acked)
                 else old(lowestNotConfirmedAcked)
    {
      for i := 0 to |acked|
        invariant lowestNotConfirmedAcked
                  == if level.OneRttLevel?
                     then ConfirmedAcked(old(lowestNotConfirmedAcked), acked[..i])
                     else old(lowestNotConfirmedAcked)
      {
        assert acked[..i + 1][..i] == acked[..i];
        if acked[i].largestAcked != INVALID_PACKET_NUMBER && level.OneRttLevel? {
          lowestNotConfirmedAcked := Max(lowestNotConfirmedAcked, acked[i].largestAcked + 1);
        }
      }
      assert acked[..|acked|] == acked;
    }

    method OnAck(level: Level, r: seq<AckRange>, lostSendTime: int, lossDelay: int) returns (result: AckResult)
      requires GetSpace(State(), level).Some? && Increasing(GetSpace(State(), level).value.history) && Valid(r)
      modifies this
      ensures (result, State()) == ReceivedAck(old(State()), level, r, lostSendTime, lossDelay)
    {
      var space := GetPacketNumberSpace(level);
      if r[0].largest > space.largestSent {
        return UnsentPacket;
      }
      PutPacketNumberSpace(level, space.(largestAcked := Max(space.largestAcked, r[0].largest)));
      if !PNG.Validate(space.numbers, r) {
        return SkippedPacket;
      }
      var acked, bug := DetermineNewlyAcked(space.history, r);
      if |acked| == 0 {
        return AckOk;
      }
      AckedSetExact(space.history, r);
      WithoutIncreasing(space.history, PnSet(acked));
      Remove(level, acked, FateAcked);
      ConfirmAcked(level, acked);
      DetectLostPackets(level, lostSendTime, lossDelay);
      ptoCount, numProbesToSend := 0, 0;
      result := AckOk;
    }

    method OnLossDetectionTimeout(lostSendTime: int, lossDelay: int)
      requires Increasing(oneRttPackets.history)
      requires initialPackets.Some? ==> Increasing(initialPackets.value.history)
      requires handshakePackets.Some? ==> Increasing(handshakePackets.value.history)
      modifies this
      ensures State() == Timeout(old(State()), lostSendTime, lossDelay)
    {
      var s := Handler(initialPackets, handshakePackets, oneRttPackets, bytesInFlight, lowestNotConfirmedAcked,
                       ptoCount, numProbesToSend, events);
      if HasOutstanding(s) {
        var (time, level) := EarliestLossTime(s);
        if time.Some? {
          DetectLostPackets(level, lostSendTime, lossDelay);
        } else {
          ptoCount, numProbesToSend := ptoCount + 1, numProbesToSend + 2;
        }
      }
    }

    method QueueProbePacket() returns (queued: bool)
      modifies this
      ensures (queued, State()) == QueueProbe(old(State()))
    {
      if initialPackets.Some? && |initialPackets.value.history| > 0 {
        Remove(InitialLevel, initialPackets.value.history[..1], FateProbed);
      } else if handshakePackets.Some? && |handshakePackets.value.history| > 0 {
        Remove(HandshakeLevel, handshakePackets.value.history[..1], FateProbed);
      } else if |oneRttPackets.history| > 0 {
        Remove(OneRttLevel, oneRttPackets.history[..1], FateProbed);
      } else {
        return false;
      }
      queued := true;
    }

    method DropPackets(level: Level)
      requires !level.OneRttLevel? && GetSpace(State(), level).Some?
      modifies this
      ensures State() == DropSpace(old(State()), level)
    {
      var space := GetPacketNumberSpace(level);
      for i := 0 to |space.history|
        invariant bytesInFlight == old(bytesInFlight) - Sum(space.history[..i])
        invariant State() == old(State()).(bytesInFlight := bytesInFlight)
      {
        SumSnoc(space.history, i);
        bytesInFlight := bytesInFlight - space.history[i].length;
      }
      assert space.history[..|space.history|] == space.history;
      events := events + Events(level, space.history, FateDropped);
      if level.InitialLevel? {
        initialPackets := None;
      } else {
        handshakePackets := None;
      }
    }

    method Reset(random: nat)
      requires initialPackets.Some?
      modifies this
      ensures State() == ResetForRetry(old(State()), random)
    {
      bytesInFlight := 0;
      var h := initialPackets.value.history;
      for i := 0 to |h|
        invariant events == old(events) + Events(InitialLevel, h[..i], FateReset)
        invariant State() == old(State()).(bytesInFlight := 0, log := events)
      {
        EventsSnoc(InitialLevel, h, i, FateReset);
        events := events + [Event(InitialLevel, h[i].pn, FateReset)];
      }
      assert h[..|h|] == h;
      initialPackets := Some(NewSpace(PNG.Pop(initialPackets.value.numbers, random).0, random));
    }
  }

  lemma {:induction false} SumSnoc(h: seq<Packet>, i: nat)
    requires i < |h|
    ensures Sum(h[..i + 1]) == Sum(h[..i]) + h[i].length
  {
    assert h[..i + 1] == h[..i] + [h[i]];
    SumConcat(h[..i], [h[i]]);
  }

  lemma {:induction false} EventsSnoc(level: Level, h: seq<Packet>, i: nat, fate: Fate)
    requires i < |h|
    ensures Events(level, h[..i + 1], fate) == Events(level, h[..i], fate) + [Event(level, h[i].pn, fate)]
  {
  }

  lemma {:induction false} PnSetSnoc(h: seq<Packet>, i: nat)
    requires i < |h|
    ensures PnSet(h[..i + 1]) == PnSet(h[..i]) + {h[i].pn}
  {
    assert h[..i + 1] == h[..i] + [h[i]];
    forall pn | pn in PnSet(h[..i]) + {h[i].pn} ensures pn in PnSet(h[..i + 1]) {
      if pn == h[i].pn {
        assert h[..i + 1][i].pn == pn;
      } else {
        var k :| 0 <= k < i && h[..i][k].pn == pn;
        assert h[..i + 1][k].pn == pn;
      }
    }
  }

  lemma {:induction false} TakeNext(h: seq<Packet>, gone: seq<Packet>, i: nat, level: Level, fate: Fate)
    requires i < |gone|
    ensures Without(Without(h, PnSet(gone[..i])), {gone[i].pn}) == Without(h, PnSet(gone[..i + 1]))
    ensures Sum(gone[..i + 1]) == Sum(gone[..i]) + gone[i].length
    ensures Events(level, gone[..i + 1], fate) == Events(level, gone[..i], fate) + [Event(level, gone[i].pn, fate)]
  {
    PnSetSnoc(gone, i);
    WithoutTwice(h, PnSet(gone[..i]), {gone[i].pn});
    SumSnoc(gone, i);
    EventsSnoc(level, gone, i, fate);
  }
}
