/** ACK ranges: validation, lookup, and how they arise from a receive history (quic-go/core/wire/ack_frame.go). */
module AckRanges {
  import RH = ReceivedHistory

  /** Both ends are included. */
  datatype AckRange = AckRange(smallest: int, largest: int)

  ghost predicate Above(r: seq<AckRange>, i: nat, j: nat)
    requires i < j < |r|
  {
    r[i].smallest > r[j].largest + 1
  }

  /** The highest range first, no two of them overlapping or adjacent. */
  ghost predicate Valid(r: seq<AckRange>) {
    && |r| > 0
    && (forall i | 0 <= i < |r| :: r[i].smallest <= r[i].largest)
    && (forall i: nat, j: nat | i < j < |r| :: Above(r, i, j))
  }

  ghost predicate Acks(r: seq<AckRange>, p: int) {
    exists i | 0 <= i < |r| :: r[i].smallest <= p <= r[i].largest
  }

  ghost predicate AboveNext(r: seq<AckRange>, i: nat) {
    i + 1 < |r| ==> r[i].smallest > r[i + 1].largest + 1
  }

  /** Valid neighbours make a valid list. */
  lemma {:induction false} NeighboursSuffice(r: seq<AckRange>, i: nat, j: nat)
    requires i < j < |r|
    requires forall k | 0 <= k < |r| :: r[k].smallest <= r[k].largest
    requires forall k: nat | k < |r| :: AboveNext(r, k)
    ensures Above(r, i, j)
    decreases j - i
  {
    assert AboveNext(r, j - 1);
    if i + 1 < j {
      NeighboursSuffice(r, i, j - 1);
    }
  }

  method ValidateAckRanges(r: seq<AckRange>) returns (ok: bool)
    ensures ok <==> Valid(r)
  {
    if |r| == 0 {
      return false;
    }
    for i := 0 to |r|
      invariant forall k | 0 <= k < i :: r[k].smallest <= r[k].largest
    {
      if r[i].smallest > r[i].largest {
        return false;
      }
    }
    for i := 0 to |r|
      invariant forall k: nat | k < i - 1 :: AboveNext(r, k)
    {
      if i == 0 {
        continue;
      }
      if r[i - 1].smallest <= r[i].smallest || r[i - 1].smallest <= r[i].largest + 1 {
        assert !Above(r, i - 1, i);
        return false;
      }
      assert AboveNext(r, i - 1);
    }
    forall i: nat, j: nat | i < j < |r| ensures Above(r, i, j) {
      NeighboursSuffice(r, i, j);
    }
    ok := true;
  }

  /** The smallest index from i on with p >= r[index].smallest. */
  function Search(r: seq<AckRange>, p: int, i: nat): (k: nat)
    requires i <= |r|
    ensures i <= k <= |r|
    ensures k < |r| ==> p >= r[k].smallest
    ensures forall j | i <= j < k :: p < r[j].smallest
    decreases |r| - i
  {
    if i == |r| || p >= r[i].smallest then i else Search(r, p, i + 1)
  }

  /** Whether p is acknowledged, as decided by one lookup (lines 218-228). */
  predicate AcksPacket(r: seq<AckRange>, p: int)
    requires |r| > 0
  {
    if p < r[|r| - 1].smallest || p > r[0].largest then false
    else
      var i := Search(r, p, 0);
      i < |r| && p <= r[i].largest
  }

  lemma {:induction false} AcksPacketExact(r: seq<AckRange>, p: int)
    requires Valid(r)
    ensures AcksPacket(r, p) <==> Acks(r, p)
  {
    var n, k := |r| - 1, Search(r, p, 0);
    if Acks(r, p) {
      var i :| 0 <= i < |r| && r[i].smallest <= p <= r[i].largest;
      assert i < n ==> Above(r, i, n);
      assert 0 < i ==> Above(r, 0, i);
      forall j | 0 <= j < i ensures p < r[j].smallest {
        assert Above(r, j, i);
      }
    }
  }

  /** The ranges of a receive history, highest first (lines 108-120 of received_packet_history.go). */
  function FromHistory(h: seq<RH.Range>): seq<AckRange> {
    if |h| == 0 then [] else [AckRange(h[|h| - 1].start, h[|h| - 1].end)] + FromHistory(h[..|h| - 1])
  }

  method GetAckRanges(h: seq<RH.Range>) returns (r: seq<AckRange>)
    ensures r == FromHistory(h)
  {
    r := [];
    var i := |h|;
    assert h[..i] == h;
    while i > 0
      invariant 0 <= i <= |h| && r + FromHistory(h[..i]) == FromHistory(h)
    {
      i := i - 1;
      assert h[..i + 1][..i] == h[..i];
      r := r + [AckRange(h[i].start, h[i].end)];
    }
  }

  lemma {:induction false} FromHistoryAt(h: seq<RH.Range>, i: nat)
    requires i < |h|
    ensures |FromHistory(h)| == |h|
    ensures FromHistory(h)[i] == AckRange(h[|h| - 1 - i].start, h[|h| - 1 - i].end)
  {
    if |h| > 1 {
      FromHistoryAt(h[..|h| - 1], if i > 0 then i - 1 else 0);
    }
  }

  lemma {:induction false} FromHistoryLength(h: seq<RH.Range>)
    ensures |FromHistory(h)| == |h|
  {
    if |h| > 0 {
      FromHistoryAt(h, 0);
    }
  }

  /** The ranges made from a history pass validation and acknowledge exactly what it holds. */
  lemma {:induction false} FromHistoryValid(h: seq<RH.Range>)
    requires RH.WellFormed(h) && |h| > 0
    ensures Valid(FromHistory(h)) && |FromHistory(h)| == |h|
    ensures forall x :: Acks(FromHistory(h), x) <==> RH.In(h, x)
  {
    var r, n := FromHistory(h), |h|;
    forall i | 0 <= i < n ensures |r| == n && r[i] == AckRange(h[n - 1 - i].start, h[n - 1 - i].end) {
      FromHistoryAt(h, i);
    }
    FromHistoryAt(h, 0);
    forall i: nat, j: nat | i < j < |r| ensures Above(r, i, j) {
      assert RH.Apart(h, n - 1 - j, n - 1 - i);
    }
    forall x ensures Acks(r, x) <==> RH.In(h, x) {
      if RH.In(h, x) {
        var i :| 0 <= i < n && h[i].start <= x <= h[i].end;
        assert r[n - 1 - i].smallest <= x <= r[n - 1 - i].largest;
      }
    }
  }

  /** Sending only the highest ranges, as a size limit may require, acknowledges no more. */
  lemma {:induction false} PrefixValid(r: seq<AckRange>, k: nat)
    requires Valid(r) && 0 < k <= |r|
    ensures Valid(r[..k])
    ensures forall x :: Acks(r[..k], x) ==> Acks(r, x)
  {
    forall i: nat, j: nat | i < j < k ensures Above(r[..k], i, j) {
      assert Above(r, i, j);
    }
    forall x | Acks(r[..k], x) ensures Acks(r, x) {
      var i :| 0 <= i < k && r[..k][i].smallest <= x <= r[..k][i].largest;
      assert r[i].smallest <= x <= r[i].largest;
    }
  }
}
