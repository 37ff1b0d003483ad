/** Loss timers, probe timeouts and probes (quic-go/core/ackhandler/sent_packet_handler.go). */
module SentPacketTimers {
  import opened Protocol
  import opened AckRanges
  import opened PacketSeqs
  import opened AckScan
  import opened SentPackets
  import opened SentPacketRuns
  import PNG = PacketNumberGenerator

  /** The times at which packets of the spaces that still exist count as lost. */
  function LossTimeOf(s: Handler, level: Level): Option<int> {
    var space := GetSpace(s, level);
    if space.None? then None else space.value.lossTime
  }

  /**
   * The time chosen is set if and only if some space has one, it is the one of the space chosen, and none is
   * earlier; of equal ones the space of the lower level is chosen.
   */
  lemma {:induction false} EarliestIsLeast(s: Handler, level: Level)
    ensures var (time, chosen) := EarliestLossTime(s);
            && (LossTimeOf(s, level).Some? ==> time.Some? && time.value <= LossTimeOf(s, level).value)
            && (time.Some? ==> LossTimeOf(s, chosen) == time)
            && (time.Some? && LossTimeOf(s, level) == time ==>
                  chosen == level || chosen.InitialLevel? || level.OneRttLevel?)
  {
  }

  /** Initial packets are probed before Handshake packets, these before 1-RTT packets, and the oldest first. */
  lemma {:induction false} ProbeOrder(s: Handler)
    ensures var level := ProbeLevel(s);
            && (level.None? <==> !HasOutstanding(s))
            && (level == Some(InitialLevel) <==> s.initial.Some? && |s.initial.value.history| > 0)
            && (level == Some(HandshakeLevel) ==>
                  && s.handshake.Some? && |s.handshake.value.history| > 0
                  && (s.initial.Some? ==> s.initial.value.history == []))
            && (level == Some(OneRttLevel) ==>
                  && |s.oneRtt.history| > 0
                  && (s.initial.Some? ==> s.initial.value.history == [])
                  && (s.handshake.Some? ==> s.handshake.value.history == []))
            && (level.Some? ==> var h := GetSpace(s, level.value).value.history;
                                QueueProbe(s) == (true, Take(s, level.value, [h[0]], FateProbed)))
  {
    if ProbeLevel(s).Some? {
      var h := GetSpace(s, ProbeLevel(s).value).value.history;
      assert h[..1] == [h[0]];
    }
  }

  /**
   * The loss timer of a space is set for the first packet that could still be declared lost: one not above the
   * largest acknowledged number, sent no earlier than the time given and less than three numbers behind.
   */
  lemma {:induction false} TimerExact(h: seq<Packet>, largest: int, t: int, d: int)
    requires Increasing(h)
    ensures var timer := LossTime(h, largest, t, d);
            if timer.None? then forall i | 0 <= i < |h| :: !AtRisk(h[i], largest, t)
            else exists i | 0 <= i < |h| :: FirstAtRisk(h, largest, t, i) && timer.value == h[i].sendTime + d
    decreases |h|, 1
  {
    if |h| > 0 {
      IncreasingTail(h);
      if h[0].pn > largest {
        forall i | 0 <= i < |h| ensures !AtRisk(h[i], largest, t) {
          assert i > 0 ==> Less(h, 0, i);
        }
      } else if AtRisk(h[0], largest, t) {
        assert FirstAtRisk(h, largest, t, 0);
      } else {
        TimerTail(h, largest, t, d);
      }
    }
  }

  predicate AtRisk(p: Packet, largest: int, t: int) {
    p.pn <= largest && p.sendTime >= t && largest < p.pn + 3
  }

  ghost predicate FirstAtRisk(h: seq<Packet>, largest: int, t: int, i: int) {
    0 <= i < |h| && AtRisk(h[i], largest, t) && forall j | 0 <= j < i :: !AtRisk(h[j], largest, t)
  }

  lemma {:induction false} IncreasingTail(h: seq<Packet>)
    requires Increasing(h) && |h| > 0
    ensures Increasing(h[1..])
  {
    var g := h[1..];
    forall i: nat, j: nat | i < j < |g| ensures Less(g, i, j) {
      assert Less(h, i + 1, j + 1);
    }
  }

  lemma {:induction false} TimerTail(h: seq<Packet>, largest: int, t: int, d: int)
    requires Increasing(h) && |h| > 0 && !AtRisk(h[0], largest, t) && h[0].pn <= largest
    ensures var timer := LossTime(h, largest, t, d);
            if timer.None? then forall i | 0 <= i < |h| :: !AtRisk(h[i], largest, t)
            else exists i | 0 <= i < |h| :: FirstAtRisk(h, largest, t, i) && timer.value == h[i].sendTime + d
    decreases |h|, 0
  {
    var g, timer := h[1..], LossTime(h, largest, t, d);
    IncreasingTail(h);
    TimerExact(g, largest, t, d);
    if timer.None? {
      forall i | 0 <= i < |h| ensures !AtRisk(h[i], largest, t) {
        assert i > 0 ==> h[i] == g[i - 1];
      }
    } else {
      var i :| 0 <= i < |g| && FirstAtRisk(g, largest, t, i) && timer.value == g[i].sendTime + d;
      forall j | 0 <= j < i + 1 ensures !AtRisk(h[j], largest, t) {
        assert j > 0 ==> h[j] == g[j - 1];
      }
      assert FirstAtRisk(h, largest, t, i + 1);
    }
  }

  // Probe timeouts over runs.

  /** The step brings an ACK that is accepted and acknowledges a packet for the first time. */
  ghost predicate AcksNew(s: Handler, step: Step)
    requires Enabled(s, step)
  {
    && step.Ack?
    && var space := GetSpace(s, step.level).value;
       && step.ranges[0].largest <= space.largestSent
       && (forall x | x in space.numbers.history :: !Acks(step.ranges, x))
       && (exists p | p in space.history :: Acks(step.ranges, p.pn))
  }

  /** The alarm goes off while packets are in flight and no loss timer is set. */
  ghost predicate TimesOut(s: Handler, step: Step) {
    step.Alarm? && HasOutstanding(s) && forall level: Level :: LossTimeOf(s, level).None?
  }

  lemma {:induction false} AckedSome(h: seq<Packet>, r: seq<AckRange>)
    requires Valid(r)
    ensures |Acked(h, r)| > 0 <==> exists p | p in h :: Acks(r, p.pn)
  {
    if |h| > 0 {
      AcksPacketExact(r, h[0].pn);
      AckedSome(h[1..], r);
      if exists p | p in h :: Acks(r, p.pn) {
        var p :| p in h && Acks(r, p.pn);
        assert p == h[0] || p in h[1..];
      }
      if exists p | p in h[1..] :: Acks(r, p.pn) {
        var p :| p in h[1..] && Acks(r, p.pn);
        assert p in h;
      }
      assert h[0] in h;
    }
  }

  lemma {:induction false} NoneSkipped(g: PNG.Generator, r: seq<AckRange>)
    requires Valid(r)
    ensures PNG.Validate(g, r) <==> forall x | x in g.history :: !Acks(r, x)
  {
    forall i | 0 <= i < |g.history| ensures AcksPacket(r, g.history[i]) <==> Acks(r, g.history[i]) {
      AcksPacketExact(r, g.history[i]);
    }
    if PNG.Validate(g, r) {
      forall x | x in g.history ensures !Acks(r, x) {
        var i :| 0 <= i < |g.history| && g.history[i] == x;
      }
    }
  }

  lemma {:induction false} TimesOutExact(s: Handler)
    ensures EarliestLossTime(s).0.None? <==> forall level: Level :: LossTimeOf(s, level).None?
  {
    EarliestIsLeast(s, InitialLevel);
    EarliestIsLeast(s, HandshakeLevel);
    EarliestIsLeast(s, OneRttLevel);
  }

  /** What one step does to the two counters. */
  ghost predicate Counts(s: Handler, step: Step, s': Handler)
    requires Enabled(s, step)
  {
    && s'.ptoCount == (if AcksNew(s, step) then 0 else s.ptoCount + if TimesOut(s, step) then 1 else 0)
    && s'.numProbesToSend == (if AcksNew(s, step) then 0
                              else if TimesOut(s, step) then s.numProbesToSend + 2
                              else if step.Send? && step.ackEliciting then Max(0, s.numProbesToSend - 1)
                              else s.numProbesToSend)
  }

  lemma {:induction false} AckCounts(w: World, step: Step)
    requires step.Ack? && Enabled(w.s, step)
    ensures Counts(w.s, step, Next(w, step).s)
  {
    var space := GetSpace(w.s, step.level).value;
    AckedSome(space.history, step.ranges);
    NoneSkipped(space.numbers, step.ranges);
  }

  lemma {:induction false} StepCounts(w: World, step: Step)
    requires Enabled(w.s, step)
    ensures Counts(w.s, step, Next(w, step).s)
  {
    if step.Ack? {
      AckCounts(w, step);
    } else if step.Alarm? {
      TimesOutExact(w.s);
    }
  }

  /** How many probe timeouts there were since the last ACK that acknowledged something new. */
  ghost function Timeouts(initialPN: nat, random: nat, steps: seq<Step>): nat
    requires Run(initialPN, random, steps).Reached?
  {
    var n := |steps| - 1;
    if n < 0 then 0
    else
      var s := Run(initialPN, random, steps[..n]).w.s;
      if AcksNew(s, steps[n]) then 0
      else Timeouts(initialPN, random, steps[..n]) + if TimesOut(s, steps[n]) then 1 else 0
  }

  /** Over every run the count that lengthens the timeout is exactly that number. */
  lemma {:induction false} TimeoutsCounted(initialPN: nat, random: nat, steps: seq<Step>)
    requires Run(initialPN, random, steps).Reached?
    ensures Run(initialPN, random, steps).w.s.ptoCount == Timeouts(initialPN, random, steps)
  {
    var n := |steps| - 1;
    if n >= 0 {
      TimeoutsCounted(initialPN, random, steps[..n]);
      StepCounts(Run(initialPN, random, steps[..n]).w, steps[n]);
    }
  }
}
