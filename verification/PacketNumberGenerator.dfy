/** Packet numbers with random gaps (quic-go/core/ackhandler/packet_number_generator.go). */
module PacketNumberGenerator {
  import opened Protocol
  import opened AckRanges

  const MAX_TRACKED_SKIPPED_PACKETS := 10

  datatype Generator = Generator(next: int, nextToSkip: int, history: seq<int>)

  /** The random number only decides how far away the next skipped number is. */
  function New(initial: int, random: nat): Generator {
    Generator(initial, initial + 2 + random, [])
  }

  /** The remembered skipped numbers, the oldest dropped when there are too many. */
  function Remember(history: seq<int>, pn: int): seq<int> {
    (if |history| + 1 > MAX_TRACKED_SKIPPED_PACKETS then history[1..] else history) + [pn]
  }

  function Pop(g: Generator, random: nat): (int, Generator) {
    if g.next + 1 == g.nextToSkip then
      (g.next, Generator(g.next + 2, g.next + 4 + random, Remember(g.history, g.next + 1)))
    else (g.next, g.(next := g.next + 1))
  }

  /** An ACK is refused if it acknowledges a number that was skipped (lines 71-78). */
  predicate Validate(g: Generator, r: seq<AckRange>)
    requires |r| > 0
  {
    forall i | 0 <= i < |g.history| :: !AcksPacket(r, g.history[i])
  }

  class PacketNumbers {
    var next: int
    var nextToSkip: int
    var history: seq<int>

    ghost function State(): Generator
      reads this
    {
      Generator(next, nextToSkip, history)
    }

    constructor (initial: int, random: nat)
      ensures State() == New(initial, random)
    {
      next, nextToSkip, history := initial, initial + 2 + random, [];
    }

    method PopNumber(random: nat) returns (pn: int)
      modifies this
      ensures (pn, State()) == Pop(old(State()), random)
    {
      pn := next;
      next := next + 1;
      if next == nextToSkip {
        if |history| + 1 > MAX_TRACKED_SKIPPED_PACKETS {
          history := history[1..];
        }
        history := history + [next];
        next := next + 1;
        nextToSkip := next + 2 + random;
      }
    }

    method ValidateAck(r: seq<AckRange>) returns (ok: bool)
      requires |r| > 0
      ensures ok == Validate(State(), r)
    {
      for i := 0 to |history|
        invariant forall j | 0 <= j < i :: !AcksPacket(r, history[j])
      {
        if AcksPacket(r, history[i]) {
          return false;
        }
      }
      ok := true;
    }
  }

  /** The numbers remembered as skipped lie below the next number, which is never about to be skipped itself. */
  ghost predicate Inv(g: Generator) {
    && 0 <= g.next < g.nextToSkip
    && (forall i | 0 <= i < |g.history| :: 0 <= g.history[i] < g.next)
  }

  /** A popped number is new, is not remembered as skipped, and what is newly remembered was never handed out. */
  lemma {:induction false} PopInv(g: Generator, random: nat)
    requires Inv(g)
    ensures var (pn, g') := Pop(g, random);
            && Inv(g') && pn == g.next < g'.next <= g.next + 2
            && pn !in g'.history
            && (forall x | x in g'.history :: x in g.history || pn < x < g'.next)
            && |g'.history| <= Max(|g.history|, MAX_TRACKED_SKIPPED_PACKETS)
  {
    var (pn, g') := Pop(g, random);
    forall x | x in g'.history ensures x in g.history || pn < x < g'.next {
      var i :| 0 <= i < |g'.history| && g'.history[i] == x;
    }
  }
}
