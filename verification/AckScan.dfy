/** The two scans over the tracked packets (quic-go/core/ackhandler/sent_packet_handler.go). */
module AckScan {
  // They find which packets an ACK newly acknowledges, and which are then lost.

  import opened Protocol
  import opened AckRanges
  import opened PacketSeqs

  const PACKET_THRESHOLD := 3

  /** The tracked numbers that the ACK acknowledges. */
  function AckedSet(h: seq<Packet>, r: seq<AckRange>): set<int>
    requires |r| > 0
  {
    set i | 0 <= i < |h| && AcksPacket(r, h[i].pn) :: h[i].pn
  }

  /** The acknowledged packets, decided one by one. */
  function Acked(h: seq<Packet>, r: seq<AckRange>): seq<Packet>
    requires |r| > 0
  {
    if |h| == 0 then []
    else if AcksPacket(r, h[0].pn) then [h[0]] + Acked(h[1..], r)
    else Acked(h[1..], r)
  }

  lemma {:induction false} AckedIsOnly(h: seq<Packet>, r: seq<AckRange>, s: set<int>)
    requires |r| > 0 && forall i | 0 <= i < |h| :: h[i].pn in s <==> AcksPacket(r, h[i].pn)
    ensures Acked(h, r) == Only(h, s)
  {
    if |h| > 0 {
      AckedIsOnly(h[1..], r, s);
    }
  }

  lemma {:induction false} AckedSetExact(h: seq<Packet>, r: seq<AckRange>)
    requires |r| > 0 && Increasing(h)
    ensures Acked(h, r) == Only(h, AckedSet(h, r))
    ensures forall p | p in h :: p.pn in AckedSet(h, r) <==> AcksPacket(r, p.pn)
  {
    var s := AckedSet(h, r);
    forall i | 0 <= i < |h| ensures h[i].pn in s <==> AcksPacket(r, h[i].pn) {
      if h[i].pn in s {
        var j :| 0 <= j < |h| && AcksPacket(r, h[j].pn) && h[j].pn == h[i].pn;
      }
    }
    AckedIsOnly(h, r, s);
  }

  lemma {:induction false} AckedSnoc(h: seq<Packet>, i: nat, r: seq<AckRange>)
    requires |r| > 0 && i < |h|
    ensures Acked(h[..i + 1], r) == Acked(h[..i], r) + (if AcksPacket(r, h[i].pn) then [h[i]] else [])
  {
    if i == 0 {
      assert h[..1] == [h[0]] && h[..1][1..] == [] && h[..0] == [];
    } else {
      assert h[..i + 1][1..] == h[1..][..i] && h[..i][1..] == h[1..][..i - 1];
      AckedSnoc(h[1..], i - 1, r);
    }
  }

  lemma {:induction false} NoneAcked(h: seq<Packet>, i: nat, r: seq<AckRange>)
    requires |r| > 0 && i <= |h| && forall k | i <= k < |h| :: !AcksPacket(r, h[k].pn)
    ensures Acked(h, r) == Acked(h[..i], r)
    decreases |h| - i
  {
    if i == |h| {
      assert h[..i] == h;
    } else {
      NoneAcked(h, i + 1, r);
      AckedSnoc(h, i, r);
    }
  }

  /** What the linear scan decides about packet pn once the lower ranges are known to lie below it. */
  lemma {:induction false} ScanDecides(r: seq<AckRange>, pn: int, k: nat)
    requires Valid(r) && k < |r| && r[|r| - 1].smallest <= pn <= r[0].largest
    requires forall j | k < j < |r| :: r[j].largest < pn
    requires pn <= r[k].largest || k == 0
    ensures AcksPacket(r, pn) <==> pn >= r[k].smallest
    ensures pn <= r[k].largest
  {
    AcksPacketExact(r, pn);
    if Acks(r, pn) {
      var i :| 0 <= i < |r| && r[i].smallest <= pn <= r[i].largest;
      assert i < k ==> Above(r, i, k);
    }
  }

  /**
   * The single pass over history and ranges (lines 236-282): both are walked upwards, and the range
   * index never goes back. It finds exactly the packets the ACK acknowledges, and its BUG is unreachable.
   */
  method DetermineNewlyAcked(h: seq<Packet>, r: seq<AckRange>) returns (acked: seq<Packet>, bug: bool)
    requires Increasing(h) && Valid(r)
    ensures !bug && acked == Acked(h, r)
  {
    acked, bug := [], false;
    var index := 0;
    var i := 0;
    var lowest, largest, n := r[|r| - 1].smallest, r[0].largest, |r|;
    while i < |h|
      invariant 0 <= i <= |h| && 0 <= index < n
      invariant acked == Acked(h[..i], r)
      invariant forall j | n - 1 - index < j < n :: i < |h| ==> r[j].largest < h[i].pn
      decreases |h| - i
    {
      var pn := h[i].pn;
      AckedSnoc(h, i, r);
      assert i + 1 < |h| ==> Less(h, i, i + 1);
      if pn < lowest {
        i := i + 1;
        continue;
      }
      if pn > largest {
        forall k | i <= k < |h| ensures !AcksPacket(r, h[k].pn) {
          assert i < k ==> Less(h, i, k);
        }
        NoneAcked(h, i, r);
        return;
      }
      if n > 1 {
        while pn > r[n - 1 - index].largest && index < n - 1
          invariant 0 <= index < n
          invariant forall j | n - 1 - index < j < n :: r[j].largest < pn
          decreases n - index
        {
          index := index + 1;
        }
        ScanDecides(r, pn, n - 1 - index);
        if pn >= r[n - 1 - index].smallest {
          if pn > r[n - 1 - index].largest {
            return acked, true;
          }
          acked := acked + [h[i]];
        }
      } else {
        ScanDecides(r, pn, 0);
        acked := acked + [h[i]];
      }
      i := i + 1;
    }
    assert h[..i] == h;
  }

  /** Sent before the time limit, or at least three numbers below the largest acknowledged one (line 359). */
  predicate IsLost(p: Packet, largestAcked: int, lostSendTime: int) {
    p.pn <= largestAcked && (p.sendTime < lostSendTime || largestAcked >= p.pn + PACKET_THRESHOLD)
  }

  function Lost(h: seq<Packet>, largestAcked: int, lostSendTime: int): seq<Packet> {
    if |h| == 0 then []
    else if IsLost(h[0], largestAcked, lostSendTime) then [h[0]] + Lost(h[1..], largestAcked, lostSendTime)
    else Lost(h[1..], largestAcked, lostSendTime)
  }

  /** When the first packet that is not yet lost will be. */
  function LossTime(h: seq<Packet>, largestAcked: int, lostSendTime: int, lossDelay: int): Option<int> {
    if |h| == 0 || h[0].pn > largestAcked then None
    else if IsLost(h[0], largestAcked, lostSendTime) then LossTime(h[1..], largestAcked, lostSendTime, lossDelay)
    else Some(h[0].sendTime + lossDelay)
  }

  function LostSet(h: seq<Packet>, largestAcked: int, lostSendTime: int): set<int> {
    set i | 0 <= i < |h| && IsLost(h[i], largestAcked, lostSendTime) :: h[i].pn
  }

  lemma {:induction false} LostIsOnly(h: seq<Packet>, la: int, t: int, s: set<int>)
    requires forall i | 0 <= i < |h| :: h[i].pn in s <==> IsLost(h[i], la, t)
    ensures Lost(h, la, t) == Only(h, s)
  {
    if |h| > 0 {
      LostIsOnly(h[1..], la, t, s);
    }
  }

  lemma {:induction false} LostSetExact(h: seq<Packet>, la: int, t: int)
    requires Increasing(h)
    ensures Lost(h, la, t) == Only(h, LostSet(h, la, t))
    ensures forall p | p in h :: p.pn in LostSet(h, la, t) <==> IsLost(p, la, t)
  {
    var s := LostSet(h, la, t);
    forall i | 0 <= i < |h| ensures h[i].pn in s <==> IsLost(h[i], la, t) {
      if h[i].pn in s {
        var j :| 0 <= j < |h| && IsLost(h[j], la, t) && h[j].pn == h[i].pn;
        assert i < j ==> Less(h, i, j);
        assert j < i ==> Less(h, j, i);
      }
    }
    LostIsOnly(h, la, t, s);
  }

  lemma {:induction false} NoneLost(h: seq<Packet>, la: int, t: int)
    requires forall k | 0 <= k < |h| :: h[k].pn > la
    ensures Lost(h, la, t) == []
  {
    if |h| > 0 {
      NoneLost(h[1..], la, t);
    }
  }

  /** The pass of detectLostPackets (lines 353-370): stops at the first packet above the largest acknowledged one. */
  method FindLost(h: seq<Packet>, largestAcked: int, lostSendTime: int, lossDelay: int)
    returns (lost: seq<Packet>, lossTime: Option<int>)
    requires Increasing(h)
    ensures lost == Lost(h, largestAcked, lostSendTime)
    ensures lossTime == LossTime(h, largestAcked, lostSendTime, lossDelay)
  {
    lost, lossTime := [], None;
    var i := 0;
    while i < |h|
      invariant 0 <= i <= |h|
      invariant Lost(h, largestAcked, lostSendTime) == lost + Lost(h[i..], largestAcked, lostSendTime)
      invariant LossTime(h, largestAcked, lostSendTime, lossDelay)
                == if lossTime.Some? then lossTime else LossTime(h[i..], largestAcked, lostSendTime, lossDelay)
    {
      var p := h[i];
      assert h[i..][1..] == h[i + 1..];
      if p.pn > largestAcked {
        forall k | 0 <= k < |h[i..]| ensures h[i..][k].pn > largestAcked {
          assert k > 0 ==> Less(h, i, i + k);
        }
        NoneLost(h[i..], largestAcked, lostSendTime);
        return;
      }
      if p.sendTime < lostSendTime || largestAcked >= p.pn + PACKET_THRESHOLD {
        lost := lost + [p];
      } else if lossTime.None? {
        lossTime := Some(p.sendTime + lossDelay);
      }
      i := i + 1;
    }
  }
}
