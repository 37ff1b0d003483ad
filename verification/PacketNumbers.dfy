/** Truncated packet numbers (quic-go/core/protocol/packet_number.go; section 17.1 of RFC 9000). */
module PacketNumbers {
  import opened Protocol
  import opened Modulo

  /** The number of packet numbers that `length` bytes can tell apart. */
  function Window(length: nat): nat
    requires 1 <= length <= 4
  {
    if length == 1 then 0x100 else if length == 2 then 0x1_0000 else if length == 3 then 0x100_0000 else 0x1_0000_0000
  }

  function Distance(a: int, b: int): nat {
    if a < b then b - a else a - b
  }

  function ClosestTo(target: int, a: int, b: int): int {
    if Distance(target, a) < Distance(target, b) then a else b
  }

  /** The start of the epoch that holds `last`; clearing low bits rounds down, also below zero (line 43). */
  function Epoch(last: int, delta: nat): int
    requires delta > 0
  {
    last - last % delta
  }

  function PreviousEpoch(epoch: int, delta: nat): int {
    if epoch > delta then epoch - delta else 0
  }

  function DecodeIn(delta: nat, last: int, wire: int): int
    requires delta > 0
  {
    var epoch := Epoch(last, delta);
    ClosestTo(last + 1, epoch + wire,
              ClosestTo(last + 1, PreviousEpoch(epoch, delta) + wire, epoch + delta + wire))
  }

  /** The packet number for a received truncated one (lines 27-54). */
  function Decode(length: nat, last: int, wire: int): int
    requires 1 <= length <= 4
  {
    DecodeIn(Window(length), last, wire)
  }

  /** The header never uses one byte (lines 72-81); the difference is taken in 64 bits. */
  function LengthForHeader(pn: int, leastUnacked: int): (length: nat)
    ensures 2 <= length <= 4
  {
    var diff := (pn - leastUnacked) % 0x1_0000_0000_0000_0000;
    if diff < 0x8000 then 2 else if diff < 0x80_0000 then 3 else 4
  }

  /** Numbers with the same low bytes are a whole window apart. */
  lemma {:induction false} Spaced(x: int, y: int, delta: nat)
    requires delta > 0 && x % delta == y % delta && x < y
    ensures y - x >= delta
  {
    var q := y / delta - x / delta;
    assert y - x == delta * q;
    Scaled(delta, q);
  }

  lemma {:induction false} EpochShape(last: int, wire: int, delta: nat, epoch: int)
    requires delta > 0 && 0 <= wire < delta && epoch == Epoch(last, delta)
    ensures epoch <= last < epoch + delta && epoch % delta == 0
    ensures (epoch + wire) % delta == wire && (epoch + delta + wire) % delta == wire
            && (epoch - delta + wire) % delta == wire
  {
    var q := last / delta;
    assert epoch == delta * q;
    Multiple(q, delta, wire);
    Multiple(q, delta, 0);
    Multiple(q + 1, delta, wire);
    Multiple(q - 1, delta, wire);
    assert delta * (q + 1) == delta * q + delta && delta * (q - 1) == delta * q - delta;
  }

  /** A multiple of the window that is not negative is zero or at least one window. */
  lemma {:induction false} EpochStart(epoch: int, delta: nat)
    requires delta > 0 && epoch % delta == 0 && epoch > 0
    ensures epoch >= delta
  {
    Spaced(0, epoch, delta);
  }

  /** x lies on or beyond the neighbouring candidates. */
  lemma {:induction false} Neighbours(epoch: int, wire: int, delta: nat, x: int)
    requires delta > 0 && (epoch + wire) % delta == wire && x % delta == wire
    ensures x == epoch + wire || x >= epoch + delta + wire || x <= epoch - delta + wire
  {
    if x > epoch + wire {
      Spaced(epoch + wire, x, delta);
    } else if x < epoch + wire {
      Spaced(x, epoch + wire, delta);
    }
  }

  /** The choice among the candidates, given where x lies. */
  lemma {:induction false} BestOf(last: int, wire: int, delta: nat, epoch: int, x: int)
    requires 0 <= wire < delta && epoch == Epoch(last, delta) && epoch <= last < epoch + delta
    requires epoch == 0 || epoch >= delta
    requires x >= 0 && (x == epoch + wire || x >= epoch + delta + wire || x <= epoch - delta + wire)
    ensures var r := DecodeIn(delta, last, wire);
            && (r == epoch + wire || r == epoch + delta + wire || (r == epoch - delta + wire && epoch >= delta))
            && Distance(last + 1, r) <= Distance(last + 1, x)
  {
  }

  /**
   * Decoding returns the number with the right low bytes that is closest to the next expected one, among
   * all numbers that are not negative.
   */
  lemma {:induction false} DecodeClosest(length: nat, last: int, wire: int, x: int)
    requires 1 <= length <= 4 && last >= 0 && 0 <= wire < Window(length)
    requires x >= 0 && x % Window(length) == wire
    ensures var r := Decode(length, last, wire);
            && r >= 0 && r % Window(length) == wire
            && Distance(last + 1, r) <= Distance(last + 1, x)
  {
    var delta := Window(length);
    var epoch := Epoch(last, delta);
    EpochShape(last, wire, delta, epoch);
    if epoch > 0 {
      EpochStart(epoch, delta);
    } else {
      NotBelow(last, delta);
    }
    Neighbours(epoch, wire, delta, x);
    BestOf(last, wire, delta, epoch, x);
  }

  lemma {:induction false} NotBelow(last: int, delta: nat)
    requires last >= 0 && delta > 0
    ensures Epoch(last, delta) >= 0
  {
    Scaled(delta, last / delta);
  }

  /** For -1, which stands for no packet, the lower candidate wins in the upper half of the window. */
  lemma {:induction false} DecodeFirst(length: nat, wire: int)
    requires 1 <= length <= 4 && 0 <= wire < Window(length)
    ensures Decode(length, -1, wire) == if 2 * wire > Window(length) then wire - Window(length) else wire
  {
    assert Epoch(-1, Window(length)) == 0 - Window(length);
  }

  /** So the function is negative exactly there, and never for a largest number from 0 on. */
  lemma {:induction false} NeverNegative(length: nat, last: int, wire: int)
    requires 1 <= length <= 4 && last >= -1 && 0 <= wire < Window(length)
    ensures Decode(length, last, wire) < 0 <==> last == -1 && 2 * wire > Window(length)
  {
    if last == -1 {
      DecodeFirst(length, wire);
    } else {
      Small(wire, Window(length));
      DecodeClosest(length, last, wire, wire);
    }
  }

  /** Decoding is exact within half a window of the next expected number, in either direction. */
  lemma {:induction false} TruncationRoundTrip(length: nat, pn: int, last: int)
    requires 1 <= length <= 4 && pn >= 0 && last >= -1
    requires 2 * Distance(last + 1, pn) < Window(length)
    ensures Decode(length, last, pn % Window(length)) == pn
  {
    var delta := Window(length);
    var wire := pn % delta;
    if last == -1 {
      Small(pn, delta);
      DecodeFirst(length, wire);
    } else {
      DecodeClosest(length, last, wire, pn);
      var r := Decode(length, last, wire);
      if r < pn {
        Spaced(r, pn, delta);
      } else if pn < r {
        Spaced(pn, r, delta);
      }
    }
  }

  /**
   * No other number with the same low bytes is preferred to pn: not the next higher one, nor the next
   * lower one if there is one. Of two at the same distance the one outside the epoch of `last` wins.
   */
  predicate Decodable(delta: nat, last: int, pn: int)
    requires delta > 0
  {
    var next, epoch := last + 1, Epoch(last, delta);
    && (2 * (next - pn) < delta || (2 * (next - pn) == delta && pn < epoch))
    && (pn < delta || 2 * (pn - next) < delta || (2 * (pn - next) == delta && pn >= epoch + delta))
  }

  lemma {:induction false} ExactAmong(delta: nat, last: int, wire: int, epoch: int, pn: int)
    requires 0 <= wire < delta && epoch == Epoch(last, delta) && 0 <= epoch <= last < epoch + delta && pn >= 0
    requires epoch == 0 || epoch >= delta
    requires || pn == epoch + wire || pn == epoch + delta + wire || pn == epoch - delta + wire
             || pn >= epoch + 2 * delta + wire || pn <= epoch - 2 * delta + wire
    ensures DecodeIn(delta, last, wire) == pn <==> Decodable(delta, last, pn)
  {
  }

  /** The exact condition: which packet numbers a receiver gets back from their low bytes. */
  lemma {:induction false} DecodeExact(length: nat, last: int, pn: int)
    requires 1 <= length <= 4 && last >= 0 && pn >= 0
    ensures Decode(length, last, pn % Window(length)) == pn <==> Decodable(Window(length), last, pn)
  {
    var delta := Window(length);
    var wire, epoch := pn % delta, Epoch(last, delta);
    EpochShape(last, wire, delta, epoch);
    NotBelow(last, delta);
    if epoch > 0 {
      EpochStart(epoch, delta);
    }
    Neighbours(epoch, wire, delta, pn);
    Neighbours(epoch + delta, wire, delta, pn);
    Neighbours(epoch - delta, wire, delta, pn);
    ExactAmong(delta, last, wire, epoch, pn);
  }

  /** The length for the header is the shortest of two to four bytes whose half window spans what is unacknowledged. */
  lemma {:induction false} HeaderWindow(pn: int, leastUnacked: int)
    requires 0 <= pn - leastUnacked < 0x8000_0000
    ensures var length := LengthForHeader(pn, leastUnacked);
            && 2 * (pn - leastUnacked) < Window(length)
            && (length > 2 ==> 2 * (pn - leastUnacked) >= Window(length - 1))
  {
    Small(pn - leastUnacked, 0x1_0000_0000_0000_0000);
  }

  /**
   * A receiver that has all acknowledged packets decodes the number in a header exactly if the packet is
   * new to it or at most half a window behind what it expects next.
   */
  lemma {:induction false} HeaderRoundTrip(pn: int, leastUnacked: int, last: int)
    requires 0 <= leastUnacked <= pn && pn - leastUnacked < 0x8000_0000 && leastUnacked - 1 <= last && 0 <= last
    ensures var length := LengthForHeader(pn, leastUnacked);
            var delta := Window(length);
            Decode(length, last, pn % delta) == pn
            <==> last < pn || 2 * (last + 1 - pn) < delta || (2 * (last + 1 - pn) == delta && pn < Epoch(last, delta))
  {
    HeaderWindow(pn, leastUnacked);
    DecodeExact(LengthForHeader(pn, leastUnacked), last, pn);
  }

  /** What one maximum for all spaces costs: packet 5 of one space after packet 100000 of another. */
  lemma {:induction false} SharedMaximumMisleads()
    ensures LengthForHeader(5, 0) == 2 && Decode(2, 100000, 5 % Window(2)) == 131077
  {
    assert Window(2) == 65536 && 100000 % 65536 == 34464 && 5 % 65536 == 5;
    assert Epoch(100000, 65536) == 65536;
  }

  /** The packet number part of the unpacker (quic-go/packet_unpacker.go). */
  class PacketUnpacker {
    /** One maximum for all packet number spaces. */
    var largestRcvdPacketNumber: int

    ghost predicate Valid()
      reads this
    {
      largestRcvdPacketNumber >= 0
    }

    constructor ()
      ensures Valid() && largestRcvdPacketNumber == 0
    {
      largestRcvdPacketNumber := 0;
    }

    /** The number of a received packet; only a packet that opens moves the maximum. */
    method UnpackNumber(length: nat, wire: int, opens: bool) returns (pn: int)
      requires Valid() && 1 <= length <= 4 && 0 <= wire < Window(length)
      modifies this
      ensures Valid() && pn >= 0 && pn == Decode(length, old(largestRcvdPacketNumber), wire)
      ensures largestRcvdPacketNumber
              == if opens then Max(old(largestRcvdPacketNumber), pn) else old(largestRcvdPacketNumber)
    {
      pn := Decode(length, largestRcvdPacketNumber, wire);
      NeverNegative(length, largestRcvdPacketNumber, wire);
      if opens && largestRcvdPacketNumber < pn {
        largestRcvdPacketNumber := pn;
      }
    }
  }
}
