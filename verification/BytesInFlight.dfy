/** Whether bytesInFlight is the length of what is in flight (quic-go/core/ackhandler/sent_packet_handler.go). */
module BytesInFlight {
  // ResetForRetry sets the counter to zero, whatever the Handshake and 1-RTT spaces track at that time.

  import opened Protocol
  import opened PacketSeqs
  import opened SentPackets
  import opened SentPacketRuns
  import Seqs

  /** The position of the last Retry of a run, -1 if there is none. */
  function LastRetry(steps: seq<Step>): (k: int)
    ensures -1 <= k < |steps| && (k >= 0 ==> steps[k].Retry?)
    ensures forall i | k < i < |steps| :: !steps[i].Retry?
  {
    var n := |steps| - 1;
    if n < 0 then -1 else if steps[n].Retry? then n else LastRetry(steps[..n])
  }

  lemma {:induction false} LastStep(initialPN: nat, random: nat, steps: seq<Step>, n: nat)
    requires Run(initialPN, random, steps).Reached? && n == |steps| - 1
    ensures Run(initialPN, random, steps[..n]).Reached?
    ensures var w := Run(initialPN, random, steps[..n]).w;
            Enabled(w.s, steps[n]) && Run(initialPN, random, steps).w == Next(w, steps[n])
  {
  }

  lemma {:induction false} PrefixReached(initialPN: nat, random: nat, steps: seq<Step>, k: nat)
    requires Run(initialPN, random, steps).Reached? && k <= |steps|
    ensures Run(initialPN, random, steps[..k]).Reached?
  {
    if k == |steps| {
      Seqs.Whole(steps);
    } else {
      var n := |steps| - 1;
      LastStep(initialPN, random, steps, n);
      PrefixReached(initialPN, random, steps[..n], k);
      Seqs.PrefixOfPrefix(steps, n, k);
    }
  }

  /** What was in flight outside the Initial space when the last Retry came; nothing if there was none. */
  ghost function Overlooked(initialPN: nat, random: nat, steps: seq<Step>): nat
    requires Run(initialPN, random, steps).Reached?
  {
    var k := LastRetry(steps);
    if k < 0 then 0
    else
      PrefixReached(initialPN, random, steps, k);
      Others(Run(initialPN, random, steps[..k]).w.s)
  }

  lemma {:induction false} ForgottenAfter(w: World, step: Step)
    requires Enabled(w.s, step)
    ensures Next(w, step).forgotten == if step.Retry? then Others(w.s) else w.forgotten
  {
  }

  lemma {:induction false} ForgottenIsOverlooked(initialPN: nat, random: nat, steps: seq<Step>)
    requires Run(initialPN, random, steps).Reached?
    ensures Run(initialPN, random, steps).w.forgotten == Overlooked(initialPN, random, steps)
  {
    var n := |steps| - 1;
    if n >= 0 {
      LastStep(initialPN, random, steps, n);
      ForgottenAfter(Run(initialPN, random, steps[..n]).w, steps[n]);
      if !steps[n].Retry? {
        ForgottenIsOverlooked(initialPN, random, steps[..n]);
        if LastRetry(steps) >= 0 {
          Seqs.PrefixOfPrefix(steps, n, LastRetry(steps));
        }
      }
    }
  }

  /**
   * bytesInFlight is the length of all tracked packets, less what the last Retry overlooked. So it is exact
   * if and only if the last Retry, if any, came while nothing was in flight outside the Initial space.
   */
  lemma {:induction false} BytesInFlightConserved(initialPN: nat, random: nat, steps: seq<Step>)
    requires Run(initialPN, random, steps).Reached?
    ensures var s, k := Run(initialPN, random, steps).w.s, LastRetry(steps);
            && s.bytesInFlight == Total(s) - Overlooked(initialPN, random, steps)
            && (k >= 0 ==> Run(initialPN, random, steps[..k]).Reached?)
            && (s.bytesInFlight == Total(s) <==> k < 0 || Others(Run(initialPN, random, steps[..k]).w.s) == 0)
  {
    ForgottenIsOverlooked(initialPN, random, steps);
    assert Inv(Run(initialPN, random, steps).w);
    var k := LastRetry(steps);
    if k >= 0 {
      PrefixReached(initialPN, random, steps, k);
    }
  }

  /** If no Retry of the run overlooked anything, the counter is exact and not negative. */
  lemma {:induction false} HarmlessRetries(initialPN: nat, random: nat, steps: seq<Step>)
    requires Run(initialPN, random, steps).Reached?
    requires forall k | 0 <= k < |steps| && steps[k].Retry? :: HarmlessAt(initialPN, random, steps[..k])
    ensures var s := Run(initialPN, random, steps).w.s; s.bytesInFlight == Total(s) >= 0
  {
    BytesInFlightConserved(initialPN, random, steps);
    var k := LastRetry(steps);
    if k >= 0 {
      assert HarmlessAt(initialPN, random, steps[..k]);
    }
  }

  ghost predicate HarmlessAt(initialPN: nat, random: nat, steps: seq<Step>) {
    var o := Run(initialPN, random, steps);
    o.Reached? ==> Others(o.w.s) == 0
  }

  // Whether the counter can become negative.

  /** The state after more steps, unless one of them is not possible. */
  ghost function Continue(w: World, more: seq<Step>): Outcome
    decreases |more|
  {
    if |more| == 0 then Reached(w)
    else if !Enabled(w.s, more[0]) then Failed
    else Continue(Next(w, more[0]), more[1..])
  }

  lemma {:induction false} ContinueSnoc(w: World, more: seq<Step>, step: Step)
    ensures var o := Continue(w, more);
            Continue(w, more + [step])
            == if o.Reached? && Enabled(o.w.s, step) then Reached(Next(o.w, step)) else Failed
    decreases |more|
  {
    var all := more + [step];
    if |more| == 0 {
      assert all[0] == step && all[1..] == [];
    } else if Enabled(w.s, more[0]) {
      assert all[0] == more[0] && all[1..] == more[1..] + [step];
      ContinueSnoc(Next(w, more[0]), more[1..], step);
    }
  }

  /** A run is what continues from the start. */
  lemma {:induction false} RunIsContinue(initialPN: nat, random: nat, steps: seq<Step>)
    ensures Run(initialPN, random, steps) == Continue(Start(initialPN, random), steps)
  {
    var n := |steps| - 1;
    if n >= 0 {
      RunIsContinue(initialPN, random, steps[..n]);
      ContinueSnoc(Start(initialPN, random), steps[..n], steps[n]);
      assert steps[..n] + [steps[n]] == steps;
    }
  }

  ghost predicate NonNegativeAfter(w: World, more: seq<Step>) {
    var o := Continue(w, more);
    o.Reached? ==> o.w.s.bytesInFlight >= 0
  }

  predicate NoRetry(steps: seq<Step>) {
    forall i | 0 <= i < |steps| :: !steps[i].Retry?
  }

  lemma {:induction false} ForgottenStays(w: World, more: seq<Step>)
    requires SentPacketRuns.Inv(w) && NoRetry(more) && Continue(w, more).Reached?
    ensures Continue(w, more).w.forgotten == w.forgotten && SentPacketRuns.Inv(Continue(w, more).w)
    decreases |more|
  {
    if |more| > 0 {
      StepInv(w, more[0]);
      ForgottenAfter(w, more[0]);
      ForgottenStays(Next(w, more[0]), more[1..]);
    }
  }

  function Count(s: Handler): nat {
    |Tracked(s, InitialLevel)| + |Tracked(s, HandshakeLevel)| + |Tracked(s, OneRttLevel)|
  }

  lemma {:induction false} TakeCounts(s: Handler, level: Level, gone: seq<Packet>, fate: Fate)
    requires GetSpace(s, level).Some? && Selection(gone, Tracked(s, level))
    ensures Count(Take(s, level, gone, fate)) == Count(s) - |gone|
  {
    var h := Tracked(s, level);
    var a :| gone == Only(h, a);
    RemoveSelected(h, a);
    Partition(h, a);
  }

  ghost predicate Ordered(s: Handler) {
    forall level :: Increasing(Tracked(s, level))
  }

  lemma {:induction false} TrackedIncreasing(w: World)
    requires SentPacketRuns.Inv(w)
    ensures Ordered(w.s)
  {
    forall level ensures Increasing(Tracked(w.s, level)) {
      assert Accounted(w.s, SentIn(w.sent, level), level);
    }
  }

  lemma {:induction false} TakeOrdered(s: Handler, level: Level, gone: seq<Packet>, fate: Fate)
    requires GetSpace(s, level).Some? && Ordered(s)
    ensures Ordered(Take(s, level, gone, fate))
  {
    var s' := Take(s, level, gone, fate);
    forall l ensures Increasing(Tracked(s', l)) {
      if l == level {
        WithoutIncreasing(Tracked(s, level), PnSet(gone));
      } else {
        assert Tracked(s', l) == Tracked(s, l);
      }
    }
  }

  /** A probe takes one packet, and its length off the counter. */
  lemma {:induction false} ProbeOnce(s: Handler, s': Handler)
    requires Ordered(s) && Count(s) > 0 && s' == QueueProbe(s).1
    ensures Ordered(s') && Count(s') < Count(s) && s'.bytesInFlight - Total(s') == s.bytesInFlight - Total(s)
  {
    var level := ProbeLevel(s).value;
    var first := Tracked(s, level)[..1];
    FirstIsSelection(Tracked(s, level));
    TakeCounts(s, level, first, FateProbed);
    TakeTotal(s, level, first, FateProbed);
    TakeOrdered(s, level, first, FateProbed);
  }

  lemma {:induction false} NothingTracked(s: Handler)
    requires Count(s) == 0
    ensures Total(s) == 0
  {
  }

  lemma {:induction false} ProbeFirst(w: World, later: seq<Step>)
    ensures Continue(w, [Probe] + later) == Continue(w.(s := QueueProbe(w.s).1), later)
  {
    assert ([Probe] + later)[1..] == later;
  }

  /** Probing until nothing is tracked takes the length of all tracked packets off the counter. */
  lemma {:induction false} ProbeAll(w: World, count: nat) returns (more: seq<Step>)
    requires Ordered(w.s) && count == Count(w.s)
    ensures NoRetry(more) && Continue(w, more).Reached?
    ensures Continue(w, more).w.s.bytesInFlight == w.s.bytesInFlight - Total(w.s)
    decreases count
  {
    if count == 0 {
      NothingTracked(w.s);
      return [];
    }
    var s' := QueueProbe(w.s).1;
    ProbeOnce(w.s, s');
    var later := ProbeAll(w.(s := s'), Count(s'));
    ProbeFirst(w, later);
    more := [Probe] + later;
  }

  /**
   * Until the next Retry the counter cannot become negative, whatever happens, if and only if the last
   * Retry, if any, came while nothing was in flight outside the Initial space.
   */
  lemma {:induction false} NeverNegative(initialPN: nat, random: nat, steps: seq<Step>)
    requires Run(initialPN, random, steps).Reached?
    ensures var k := LastRetry(steps);
            && (k >= 0 ==> Run(initialPN, random, steps[..k]).Reached?)
            && ((forall more | NoRetry(more) :: NonNegativeAfter(Run(initialPN, random, steps).w, more))
                <==> k < 0 || Others(Run(initialPN, random, steps[..k]).w.s) == 0)
  {
    ForgottenIsOverlooked(initialPN, random, steps);
    var k := LastRetry(steps);
    if k >= 0 {
      PrefixReached(initialPN, random, steps, k);
    }
    NonNegativeIff(Run(initialPN, random, steps).w);
  }

  lemma {:induction false} NonNegativeIff(w: World)
    requires SentPacketRuns.Inv(w)
    ensures (forall more | NoRetry(more) :: NonNegativeAfter(w, more)) <==> w.forgotten == 0
  {
    if w.forgotten == 0 {
      forall more | NoRetry(more) ensures NonNegativeAfter(w, more) {
        if Continue(w, more).Reached? {
          ForgottenStays(w, more);
        }
      }
    } else {
      TrackedIncreasing(w);
      var more := ProbeAll(w, Count(w.s));
      assert !NonNegativeAfter(w, more);
    }
  }

  /** The states of the run below. */
  lemma {:induction false} Underflows(w0: World, p: Packet, random: nat, w1: World, w2: World)
    requires w0.s.initial.Some? && w0.s.handshake.Some? && w0.s.bytesInFlight == 0
             && Tracked(w0.s, HandshakeLevel) == []
    requires w1 == Next(w0, Send(HandshakeLevel, random, p.length, p.sendTime, p.largestAcked, true))
    requires w0.s.handshake.value.numbers.next == p.pn && w1.s.initial.Some? && w2 == Next(w1, Retry(random))
    ensures w2.s.handshake.Some? && Next(w2, Drop(HandshakeLevel)).s.bytesInFlight + p.length == 0
  {
    assert Tracked(w1.s, HandshakeLevel) == [p];
    assert w2.s.handshake == w1.s.handshake && w2.s.bytesInFlight == 0;
    assert Sum([p]) == p.length;
  }

  /** A run that ends below zero: a Handshake packet is in flight when a Retry comes, and its space is dropped. */
  lemma {:induction false} RetryCanUnderflow(initialPN: nat, random: nat, length: nat, sendTime: int, acks: int)
    ensures var send := Send(HandshakeLevel, random, length, sendTime, acks, true);
            var o := Run(initialPN, random, [send, Retry(random), Drop(HandshakeLevel)]);
            o.Reached? && o.w.s.bytesInFlight + length == 0
  {
    var send := Send(HandshakeLevel, random, length, sendTime, acks, true);
    var w0 := Start(initialPN, random);
    var w1 := Next(w0, send);
    var w2 := Next(w1, Retry(random));
    Underflows(w0, Packet(w0.s.handshake.value.numbers.next, length, sendTime, acks), random, w1, w2);
    ContinueThree(w0, send, Retry(random), Drop(HandshakeLevel), w1, w2);
    RunIsContinue(initialPN, random, [send, Retry(random), Drop(HandshakeLevel)]);
  }

  lemma {:induction false} ContinueThree(w0: World, a: Step, b: Step, c: Step, w1: World, w2: World)
    requires Enabled(w0.s, a) && w1 == Next(w0, a) && Enabled(w1.s, b) && w2 == Next(w1, b) && Enabled(w2.s, c)
    ensures Continue(w0, [a, b, c]) == Reached(Next(w2, c))
  {
    assert [a, b, c][1..] == [b, c] && [b, c][1..] == [c] && [c][1..] == [];
    assert Continue(w2, [c]) == Continue(Next(w2, c), []);
  }
}
