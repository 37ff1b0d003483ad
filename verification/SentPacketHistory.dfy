/** The outstanding packets: a list in sending order plus an index (quic-go/core/ackhandler/sent_packet_history.go). */
module SentPacketHistory {
  import opened Protocol
  import opened PacketSeqs

  class SentPacketHistory {
    var packetList: seq<Packet>
    var packetMap: map<int, Packet>

    /** List and index hold the same packets, ordered by number. */
    ghost predicate Valid()
      reads this
    {
      && Increasing(packetList)
      && |packetMap| == |packetList|
      && (forall i | 0 <= i < |packetList| ::
            packetList[i].pn in packetMap && packetMap[packetList[i].pn] == packetList[i])
      && (forall pn | pn in packetMap :: packetMap[pn].pn == pn && packetMap[pn] in packetList)
    }

    constructor ()
      ensures Valid() && packetList == []
    {
      packetList, packetMap := [], map[];
    }

    method SentPacket(p: Packet)
      requires Valid() && (|packetList| > 0 ==> packetList[|packetList| - 1].pn < p.pn)
      modifies this
      ensures Valid() && packetList == old(packetList) + [p]
    {
      IncreasingSnoc(packetList, p);
      forall i | 0 <= i < |packetList| ensures packetList[i].pn < p.pn {
        assert i < |packetList| - 1 ==> Less(packetList, i, |packetList| - 1);
      }
      assert p.pn !in packetMap;
      packetList := packetList + [p];
      packetMap := packetMap[p.pn := p];
    }

    method GetPacket(pn: int) returns (p: Option<Packet>)
      requires Valid()
      ensures p == None <==> forall i | 0 <= i < |packetList| :: packetList[i].pn != pn
      ensures p.Some? ==> p.value in packetList && p.value.pn == pn
    {
      p := if pn in packetMap then Some(packetMap[pn]) else None;
    }

    method FirstOutstanding() returns (p: Option<Packet>)
      requires Valid()
      ensures p == if |packetList| == 0 then None else Some(packetList[0])
    {
      p := if |packetList| == 0 then None else Some(packetList[0]);
    }

    method Len() returns (n: nat)
      requires Valid()
      ensures n == |packetList|
    {
      n := |packetMap|;
    }

    method Remove(pn: int) returns (found: bool)
      requires Valid()
      modifies this
      ensures Valid() && found == (exists i | 0 <= i < |old(packetList)| :: old(packetList)[i].pn == pn)
      ensures packetList == Without(old(packetList), {pn})
    {
      if pn !in packetMap {
        NoneSelected(packetList, {pn});
        return false;
      }
      assert packetMap[pn] in packetList;
      var i :| 0 <= i < |packetList| && packetList[i].pn == pn;
      RemoveOne(packetList, i);
      WithoutIncreasing(packetList, {pn});
      ghost var before := packetList;
      packetList := packetList[..i] + packetList[i + 1..];
      packetMap := packetMap - {pn};
      forall p | p in before && p.pn != pn ensures p in packetList {
        WithoutMember(before, {pn}, p);
      }
      forall k | 0 <= k < |packetList|
        ensures packetList[k].pn in packetMap && packetMap[packetList[k].pn] == packetList[k]
      {
        WithoutMember(before, {pn}, packetList[k]);
      }
      found := true;
    }
  }

  /** Unlinking the one packet with a number removes exactly that number. */
  lemma {:induction false} RemoveOne(h: seq<Packet>, i: nat)
    requires Increasing(h) && i < |h|
    ensures h[..i] + h[i + 1..] == Without(h, {h[i].pn})
  {
    var s := {h[i].pn};
    assert h == h[..i] + ([h[i]] + h[i + 1..]);
    WithoutConcat(h[..i], [h[i]] + h[i + 1..], s);
    forall k | 0 <= k < i ensures h[k].pn !in s {
      assert Less(h, k, i);
    }
    forall k | i < k < |h| ensures h[k].pn !in s {
      assert Less(h, i, k);
    }
    NoneSelected(h[..i], s);
    NoneSelected(h[i + 1..], s);
    assert ([h[i]] + h[i + 1..])[1..] == h[i + 1..];
  }
}
