/** Which ACKs are refused, and what they confirm (quic-go/core/ackhandler/sent_packet_handler.go). */
module SentPacketAcks {
  import opened Protocol
  import opened AckRanges
  import opened PacketSeqs
  import opened SentPackets
  import opened SentPacketRuns
  import ST = SentPacketTimers

  /** The number of the last packet sent in this space, or the invalid one; a Retry starts the Initial space over. */
  ghost function LastSent(initialPN: nat, random: nat, steps: seq<Step>, level: Level): int
    requires Run(initialPN, random, steps).Reached?
  {
    var n := |steps| - 1;
    if n < 0 then INVALID_PACKET_NUMBER
    else
      var s := Run(initialPN, random, steps[..n]).w.s;
      if steps[n].Send? && steps[n].level == level then GetSpace(s, level).value.numbers.next
      else if steps[n].Retry? && level.InitialLevel? then INVALID_PACKET_NUMBER
      else LastSent(initialPN, random, steps[..n], level)
  }

  lemma {:induction false} StepSent(w: World, step: Step, level: Level)
    requires Enabled(w.s, step) && GetSpace(Next(w, step).s, level).Some?
    ensures GetSpace(w.s, level).Some?
    ensures GetSpace(Next(w, step).s, level).value.largestSent
            == if step.Send? && step.level == level then GetSpace(w.s, level).value.numbers.next
               else if step.Retry? && level.InitialLevel? then INVALID_PACKET_NUMBER
               else GetSpace(w.s, level).value.largestSent
  {
  }

  lemma {:induction false} LastSentExact(initialPN: nat, random: nat, steps: seq<Step>, level: Level)
    requires Run(initialPN, random, steps).Reached? && GetSpace(Run(initialPN, random, steps).w.s, level).Some?
    ensures GetSpace(Run(initialPN, random, steps).w.s, level).value.largestSent
            == LastSent(initialPN, random, steps, level)
  {
    var n := |steps| - 1;
    if n >= 0 {
      StepSent(Run(initialPN, random, steps[..n]).w, steps[n], level);
      LastSentExact(initialPN, random, steps[..n], level);
    }
  }

  /**
   * After every run an ACK is refused exactly if its largest number was never sent in this space, or if it
   * acknowledges a number that is remembered as skipped.
   */
  lemma {:induction false} VerdictExact(initialPN: nat, random: nat, steps: seq<Step>, level: Level, r: seq<AckRange>,
                                        t: int, d: int)
    requires Run(initialPN, random, steps).Reached? && GetSpace(Run(initialPN, random, steps).w.s, level).Some?
    requires Valid(r)
    ensures var s := Run(initialPN, random, steps).w.s;
            var skipped := GetSpace(s, level).value.numbers.history;
            ReceivedAck(s, level, r, t, d).0
            == if r[0].largest > LastSent(initialPN, random, steps, level) then UnsentPacket
               else if exists x | x in skipped :: Acks(r, x) then SkippedPacket
               else AckOk
  {
    var s := Run(initialPN, random, steps).w.s;
    LastSentExact(initialPN, random, steps, level);
    ST.NoneSkipped(GetSpace(s, level).value.numbers, r);
  }

  /**
   * What the peer has surely seen of our ACKs: the bound after an ACK is the least one that is not below the old
   * one and lies above all that the newly acknowledged packets acknowledged.
   */
  lemma {:induction false} ConfirmedExact(lowest: int, acked: seq<Packet>, x: int)
    ensures ConfirmedAcked(lowest, acked) <= x <==>
              && lowest <= x
              && forall p | p in acked && p.largestAcked != INVALID_PACKET_NUMBER :: p.largestAcked < x
  {
    var n := |acked| - 1;
    if n >= 0 {
      ConfirmedExact(lowest, acked[..n], x);
      assert forall p :: p in acked <==> p in acked[..n] || p == acked[n] by {
        assert acked == acked[..n] + [acked[n]];
      }
    }
  }
}
