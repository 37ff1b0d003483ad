/** Which packet numbers are handed out and which are skipped (quic-go/core/ackhandler/packet_number_generator.go). */
module PacketNumberSkips {
  import opened PacketNumberGenerator

  /** A generator, the numbers it has handed out and skipped, and the random numbers it drew for its skips. */
  datatype World = World(g: Generator, given: seq<int>, skipped: seq<int>, drawn: seq<nat>)

  /** A number is skipped exactly if it lies between the one handed out and the next one. */
  function Next(w: World, random: nat): World {
    var (pn, g) := Pop(w.g, random);
    if g.next == pn + 1 then w.(g := g, given := w.given + [pn])
    else World(g, w.given + [pn], w.skipped + [pn + 1], w.drawn + [random])
  }

  /** Where the numbers that lead up to skip i start. */
  function From(initial: nat, skipped: seq<int>, i: nat): int
    requires i <= |skipped|
  {
    if i == 0 then initial else skipped[i - 1] + 1
  }

  /** Skip i comes after as many numbers as were drawn for it, and two more. */
  ghost predicate SpacedAt(w: World, initial: nat, i: nat)
    requires i < |w.skipped| < |w.drawn|
  {
    w.skipped[i] == From(initial, w.skipped, i) + 2 + w.drawn[i]
  }

  /** Every number from the first on has been handed out or skipped, and not both. */
  ghost predicate Partition(w: World, initial: nat) {
    forall x: int :: (x in w.given || x in w.skipped <==> initial <= x < w.g.next)
                     && !(x in w.given && x in w.skipped)
  }

  /** The last ones, at most as many as are remembered. */
  function Remembered(skipped: seq<int>): seq<int> {
    var n := |skipped| - MAX_TRACKED_SKIPPED_PACKETS;
    if n <= 0 then skipped else skipped[n..]
  }

  ghost predicate Ok(w: World, initial: nat) {
    && |w.drawn| == |w.skipped| + 1 && w.g.next < w.g.nextToSkip
    && w.g.nextToSkip == From(initial, w.skipped, |w.skipped|) + 2 + w.drawn[|w.skipped|]
    && (forall i: nat | i < |w.skipped| :: SpacedAt(w, initial, i))
    && Partition(w, initial) && initial <= w.g.next
    && w.g.history == Remembered(w.skipped)
  }

  lemma {:induction false} RememberSnoc(skipped: seq<int>, x: int)
    ensures Remember(Remembered(skipped), x) == Remembered(skipped + [x])
  {
  }

  lemma {:induction false} NextPartition(w: World, initial: nat, random: nat)
    requires Ok(w, initial)
    ensures Partition(Next(w, random), initial)
  {
    var w' := Next(w, random);
    forall x: int
      ensures (x in w'.given || x in w'.skipped <==> initial <= x < w'.g.next) && !(x in w'.given && x in w'.skipped)
    {
      assert x in w'.given <==> x in w.given || x == w.g.next;
      assert x in w'.skipped <==> x in w.skipped || (x == w.g.next + 1 && w'.g.next != w.g.next + 1);
    }
  }

  lemma {:induction false} NextOk(w: World, initial: nat, random: nat)
    requires Ok(w, initial)
    ensures Ok(Next(w, random), initial)
  {
    var w' := Next(w, random);
    NextPartition(w, initial, random);
    RememberSnoc(w.skipped, w.g.next + 1);
    forall i: nat | i < |w'.skipped| ensures SpacedAt(w', initial, i) {
      if i < |w.skipped| {
        assert SpacedAt(w, initial, i);
      }
    }
  }

  /** The generator after handing out as many numbers as there are random ones. */
  function Run(initial: nat, random: nat, randoms: seq<nat>): World {
    var n := |randoms| - 1;
    if n < 0 then World(New(initial, random), [], [], [random])
    else Next(Run(initial, random, randoms[..n]), randoms[n])
  }

  /**
   * Over every run: every number from the first on is handed out or skipped,
   * one is skipped after each two and as many more as were drawn for it, and the last ten skipped are
   * remembered.
   */
  lemma {:induction false} SkipsExact(initial: nat, random: nat, randoms: seq<nat>)
    ensures Ok(Run(initial, random, randoms), initial)
  {
    var n := |randoms| - 1;
    if n >= 0 {
      SkipsExact(initial, random, randoms[..n]);
      NextOk(Run(initial, random, randoms[..n]), initial, randoms[n]);
    }
  }
}
