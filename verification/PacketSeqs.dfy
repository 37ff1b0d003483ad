/** Sequences of tracked packets: selecting and removing by packet number, sums of lengths. */
module PacketSeqs {

  datatype Packet = Packet(pn: int, length: nat, sendTime: int, largestAcked: int)

  ghost predicate Less(h: seq<Packet>, i: nat, j: nat)
    requires i < j < |h|
  {
    h[i].pn < h[j].pn
  }

  /** Packet numbers increase, as they do in the order of sending. */
  ghost predicate Increasing(h: seq<Packet>) {
    forall i: nat, j: nat | i < j < |h| :: Less(h, i, j)
  }

  function Sum(h: seq<Packet>): nat {
    if |h| == 0 then 0 else h[0].length + Sum(h[1..])
  }

  /** The packets whose number is in s. */
  function Only(h: seq<Packet>, s: set<int>): seq<Packet> {
    if |h| == 0 then []
    else if h[0].pn in s then [h[0]] + Only(h[1..], s)
    else Only(h[1..], s)
  }

  /** The packets whose number is not in s. */
  function Without(h: seq<Packet>, s: set<int>): seq<Packet> {
    if |h| == 0 then []
    else if h[0].pn in s then Without(h[1..], s)
    else [h[0]] + Without(h[1..], s)
  }

  function Numbers(h: seq<Packet>): multiset<int> {
    if |h| == 0 then multiset{} else multiset{h[0].pn} + Numbers(h[1..])
  }

  lemma {:induction false} SumConcat(a: seq<Packet>, b: seq<Packet>)
    ensures Sum(a + b) == Sum(a) + Sum(b)
    ensures Numbers(a + b) == Numbers(a) + Numbers(b)
  {
    if |a| == 0 {
      assert a + b == b;
    } else {
      assert (a + b)[1..] == a[1..] + b;
      SumConcat(a[1..], b);
    }
  }

  lemma {:induction false} ConsSum(p: Packet, h: seq<Packet>)
    ensures Sum([p] + h) == p.length + Sum(h) && Numbers([p] + h) == multiset{p.pn} + Numbers(h)
  {
    assert ([p] + h)[1..] == h;
  }

  /** Selecting and removing partition the packets. */
  lemma {:induction false} Partition(h: seq<Packet>, s: set<int>)
    ensures Sum(Only(h, s)) + Sum(Without(h, s)) == Sum(h)
    ensures Numbers(Only(h, s)) + Numbers(Without(h, s)) == Numbers(h)
    ensures |Only(h, s)| + |Without(h, s)| == |h|
  {
    if |h| > 0 {
      Partition(h[1..], s);
      ConsSum(h[0], if h[0].pn in s then Only(h[1..], s) else Without(h[1..], s));
    }
  }

  lemma {:induction false} WithoutMember(h: seq<Packet>, s: set<int>, p: Packet)
    ensures p in Without(h, s) <==> p in h && p.pn !in s
    ensures p in Only(h, s) <==> p in h && p.pn in s
  {
    if |h| > 0 {
      WithoutMember(h[1..], s, p);
      assert h == [h[0]] + h[1..];
    }
  }

  lemma {:induction false} WithoutConcat(a: seq<Packet>, b: seq<Packet>, s: set<int>)
    ensures Without(a + b, s) == Without(a, s) + Without(b, s)
  {
    if |a| == 0 {
      assert a + b == b;
    } else {
      assert (a + b)[1..] == a[1..] + b;
      WithoutConcat(a[1..], b, s);
    }
  }

  lemma {:induction false} WithoutTwice(h: seq<Packet>, s: set<int>, t: set<int>)
    ensures Without(Without(h, s), t) == Without(h, s + t)
  {
    if |h| > 0 {
      WithoutTwice(h[1..], s, t);
      assert ([h[0]] + Without(h[1..], s))[1..] == Without(h[1..], s);
    }
  }

  lemma {:induction false} NoneSelected(h: seq<Packet>, s: set<int>)
    requires forall i | 0 <= i < |h| :: h[i].pn !in s
    ensures Only(h, s) == [] && Without(h, s) == h
  {
    if |h| > 0 {
      NoneSelected(h[1..], s);
    }
  }

  lemma {:induction false} IncreasingSlice(h: seq<Packet>, i: nat, j: nat)
    requires Increasing(h) && i <= j <= |h|
    ensures Increasing(h[i..j])
  {
    forall k: nat, m: nat | k < m < |h[i..j]| ensures Less(h[i..j], k, m) {
      assert Less(h, i + k, i + m);
    }
  }

  lemma {:induction false} IncreasingSnoc(h: seq<Packet>, p: Packet)
    requires Increasing(h) && (|h| > 0 ==> h[|h| - 1].pn < p.pn)
    ensures Increasing(h + [p])
  {
    var n := |h|;
    forall i: nat, j: nat | i < j < |h + [p]| ensures Less(h + [p], i, j) {
      if j < n {
        assert Less(h, i, j);
      } else if i < n - 1 {
        assert Less(h, i, n - 1);
      }
    }
  }

  lemma {:induction false} WithoutIncreasing(h: seq<Packet>, s: set<int>)
    requires Increasing(h)
    ensures Increasing(Without(h, s)) && Increasing(Only(h, s))
    ensures |Without(h, s)| > 0 ==> |h| > 0 && Without(h, s)[0].pn >= h[0].pn
    ensures |Only(h, s)| > 0 ==> |h| > 0 && Only(h, s)[0].pn >= h[0].pn
  {
    if |h| > 0 {
      IncreasingSlice(h, 1, |h|);
      assert h[1..] == h[1..|h|];
      assert |h| > 1 ==> Less(h, 0, 1);
      WithoutIncreasing(h[1..], s);
      IncreasingCons(h[0], Without(h[1..], s));
      IncreasingCons(h[0], Only(h[1..], s));
    }
  }

  lemma {:induction false} IncreasingCons(p: Packet, h: seq<Packet>)
    requires Increasing(h) && (|h| > 0 ==> p.pn < h[0].pn)
    ensures Increasing([p] + h)
  {
    forall i: nat, j: nat | i < j < |[p] + h| ensures Less([p] + h, i, j) {
      if i > 0 {
        assert Less(h, i - 1, j - 1);
      } else if j > 1 {
        assert Less(h, 0, j - 1);
      }
    }
  }
}
