/** The order in which the dynamic first-come-first-serve scheduler sends (python/har_converter.py). */
module DynamicQueue {
  import Seqs

  datatype ResourceType = Document | Stylesheet | Font | Script | Xhr | Image | OtherType

  /** A queued stream: when it was enqueued, where it stands in the queue, and its class. */
  datatype Item = Item(id: nat, resourceType: ResourceType, enqueuedAt: nat)

  const LOWEST: nat := 4

  /** The class of the item at position i: only the first script in the queue ranks with XHR (lines 309-333). */
  function Priority(items: seq<Item>, i: nat): (p: nat)
    requires i < |items|
    ensures p <= LOWEST
  {
    match items[i].resourceType
    case Document => 0
    case Stylesheet => 0
    case Font => 0
    case Script => if exists j | 0 <= j < i :: items[j].resourceType == Script then 2 else 1
    case Xhr => 1
    case Image => 3
    case OtherType => 4
  }

  /** An item with its class and its position in the old queue. */
  datatype Ranked = Ranked(item: Item, priority: nat, position: nat)

  function Rank(items: seq<Item>, n: nat): (r: seq<Ranked>)
    requires n <= |items|
    ensures |r| == n && forall i | 0 <= i < n :: r[i] == Ranked(items[i], Priority(items, i), i)
  {
    if n == 0 then [] else Rank(items, n - 1) + [Ranked(items[n - 1], Priority(items, n - 1), n - 1)]
  }

  /** One of the five lists, in queue order. */
  function OfClass(r: seq<Ranked>, p: nat): seq<Ranked> {
    if |r| == 0 then []
    else if r[0].priority == p then [r[0]] + OfClass(r[1..], p)
    else OfClass(r[1..], p)
  }

  /** Puts x in front of the first element that was not enqueued before it. */
  function Insert(x: Ranked, r: seq<Ranked>): seq<Ranked> {
    if |r| == 0 || x.item.enqueuedAt <= r[0].item.enqueuedAt then [x] + r else [r[0]] + Insert(x, r[1..])
  }

  /** A stable sort by the time of enqueueing (line 276). */
  function SortByTime(r: seq<Ranked>): seq<Ranked> {
    if |r| == 0 then [] else Insert(r[0], SortByTime(r[1..]))
  }

  /** The sorted lists of the classes from p on, one after the other (lines 335-347). */
  function FromClass(r: seq<Ranked>, p: nat): seq<Ranked>
    requires p <= LOWEST + 1
    decreases LOWEST + 1 - p
  {
    if p == LOWEST + 1 then [] else SortByTime(OfClass(r, p)) + FromClass(r, p + 1)
  }

  function Reordered(items: seq<Item>): seq<Ranked> {
    FromClass(Rank(items, |items|), 0)
  }

  /** Higher class first, then earlier enqueued, then earlier in the old queue. */
  predicate Precedes(a: Ranked, b: Ranked) {
    || a.priority < b.priority
    || (a.priority == b.priority && a.item.enqueuedAt < b.item.enqueuedAt)
    || (a.priority == b.priority && a.item.enqueuedAt == b.item.enqueuedAt && a.position < b.position)
  }

  ghost predicate PrecedesAt(r: seq<Ranked>, i: nat, j: nat)
    requires i < j < |r|
  {
    Precedes(r[i], r[j])
  }

  ghost predicate Sorted(r: seq<Ranked>) {
    forall i: nat, j: nat | i < j < |r| :: PrecedesAt(r, i, j)
  }

  ghost predicate After(r: seq<Ranked>, i: nat, j: nat)
    requires i < j < |r|
  {
    r[i].position < r[j].position
  }

  ghost predicate InOrder(r: seq<Ranked>) {
    forall i: nat, j: nat | i < j < |r| :: After(r, i, j)
  }

  lemma {:induction false} SortedCons(x: Ranked, r: seq<Ranked>)
    requires Sorted(r) && forall i | 0 <= i < |r| :: Precedes(x, r[i])
    ensures Sorted([x] + r)
  {
    forall i: nat, j: nat | i < j < |[x] + r| ensures PrecedesAt([x] + r, i, j) {
      assert i > 0 ==> PrecedesAt(r, i - 1, j - 1);
    }
  }

  lemma {:induction false} SortedTail(r: seq<Ranked>)
    requires Sorted(r) && |r| > 0
    ensures Sorted(r[1..]) && forall i | 0 <= i < |r| - 1 :: Precedes(r[0], r[1..][i])
  {
    forall i: nat, j: nat | i < j < |r[1..]| ensures PrecedesAt(r[1..], i, j) {
      assert PrecedesAt(r, i + 1, j + 1);
    }
    forall i | 0 <= i < |r| - 1 ensures Precedes(r[0], r[1..][i]) {
      assert PrecedesAt(r, 0, i + 1);
    }
  }

  lemma {:induction false} SortedConcat(a: seq<Ranked>, b: seq<Ranked>)
    requires Sorted(a) && Sorted(b) && forall i, j | 0 <= i < |a| && 0 <= j < |b| :: Precedes(a[i], b[j])
    ensures Sorted(a + b)
  {
    forall i: nat, j: nat | i < j < |a + b| ensures PrecedesAt(a + b, i, j) {
      if j < |a| {
        assert PrecedesAt(a, i, j);
      } else if i >= |a| {
        assert PrecedesAt(b, i - |a|, j - |a|);
      }
    }
  }

  lemma {:induction false} InsertPermutes(x: Ranked, r: seq<Ranked>)
    ensures multiset(Insert(x, r)) == multiset(r) + multiset{x}
  {
    if !(|r| == 0 || x.item.enqueuedAt <= r[0].item.enqueuedAt) {
      InsertPermutes(x, r[1..]);
      assert r == [r[0]] + r[1..];
    }
  }

  lemma {:induction false} SortPermutes(r: seq<Ranked>)
    ensures multiset(SortByTime(r)) == multiset(r)
  {
    if |r| > 0 {
      SortPermutes(r[1..]);
      InsertPermutes(r[0], SortByTime(r[1..]));
      assert r == [r[0]] + r[1..];
    }
  }

  lemma {:induction false} SameMembers(a: seq<Ranked>, b: seq<Ranked>, x: Ranked)
    requires multiset(a) == multiset(b)
    ensures x in a <==> x in b
  {
    assert x in multiset(a) <==> x in multiset(b);
  }

  lemma {:induction false} InsertSorted(x: Ranked, r: seq<Ranked>)
    requires Sorted(r) && forall y | y in r :: y.priority == x.priority && x.position < y.position
    ensures Sorted(Insert(x, r))
  {
    if |r| == 0 || x.item.enqueuedAt <= r[0].item.enqueuedAt {
      forall i | 0 <= i < |r| ensures Precedes(x, r[i]) {
        assert i > 0 ==> PrecedesAt(r, 0, i);
        assert r[i] in r;
        assert r[0] in r;
      }
      SortedCons(x, r);
    } else {
      var t := r[1..];
      SortedTail(r);
      assert r[0] in r && forall y | y in t :: y in r;
      InsertSorted(x, t);
      InsertPermutes(x, t);
      forall i | 0 <= i < |Insert(x, t)| ensures Precedes(r[0], Insert(x, t)[i]) {
        assert Insert(x, t)[i] in multiset(t) + multiset{x};
        if Insert(x, t)[i] != x {
          var k :| 0 <= k < |t| && t[k] == Insert(x, t)[i];
        }
      }
      SortedCons(r[0], Insert(x, t));
    }
  }

  lemma {:induction false} SortSorted(r: seq<Ranked>, p: nat)
    requires InOrder(r) && forall y | y in r :: y.priority == p
    ensures Sorted(SortByTime(r))
  {
    if |r| > 0 {
      var t := r[1..];
      forall i: nat, j: nat | i < j < |t| ensures After(t, i, j) {
        assert After(r, i + 1, j + 1);
      }
      SortSorted(t, p);
      SortPermutes(t);
      forall y | y in SortByTime(t) ensures y.priority == r[0].priority && r[0].position < y.position {
        SameMembers(SortByTime(t), t, y);
        var k :| 0 <= k < |t| && t[k] == y;
        assert After(r, 0, k + 1);
        assert r[0] in r;
      }
      InsertSorted(r[0], SortByTime(t));
    }
  }

  lemma {:induction false} OfClassOk(r: seq<Ranked>, p: nat)
    requires InOrder(r)
    ensures InOrder(OfClass(r, p))
    ensures forall y | y in OfClass(r, p) :: y in r && y.priority == p
  {
    if |r| > 0 {
      var t := r[1..];
      forall i: nat, j: nat | i < j < |t| ensures After(t, i, j) {
        assert After(r, i + 1, j + 1);
      }
      OfClassOk(t, p);
      if r[0].priority == p {
        var c := [r[0]] + OfClass(t, p);
        forall i: nat, j: nat | i < j < |c| ensures After(c, i, j) {
          if i > 0 {
            assert After(OfClass(t, p), i - 1, j - 1);
          } else {
            assert OfClass(t, p)[j - 1] in t;
            var k :| 0 <= k < |t| && t[k] == OfClass(t, p)[j - 1];
            assert After(r, 0, k + 1);
          }
        }
      }
    }
  }

  lemma {:induction false} FromClassSorted(r: seq<Ranked>, p: nat)
    requires InOrder(r) && p <= LOWEST + 1
    ensures Sorted(FromClass(r, p)) && forall y | y in FromClass(r, p) :: y.priority >= p
    decreases LOWEST + 1 - p
  {
    if p <= LOWEST {
      var a, b := SortByTime(OfClass(r, p)), FromClass(r, p + 1);
      OfClassOk(r, p);
      SortSorted(OfClass(r, p), p);
      SortPermutes(OfClass(r, p));
      FromClassSorted(r, p + 1);
      forall y | y in a ensures y.priority == p {
        SameMembers(a, OfClass(r, p), y);
      }
      forall i, j | 0 <= i < |a| && 0 <= j < |b| ensures Precedes(a[i], b[j]) {
        assert a[i] in a && b[j] in b;
      }
      SortedConcat(a, b);
    }
  }

  /** The items of class p and above. */
  function AtLeast(r: seq<Ranked>, p: nat): seq<Ranked> {
    if |r| == 0 then []
    else if r[0].priority >= p then [r[0]] + AtLeast(r[1..], p)
    else AtLeast(r[1..], p)
  }

  lemma {:induction false} ClassSplit(r: seq<Ranked>, p: nat)
    ensures multiset(OfClass(r, p)) + multiset(AtLeast(r, p + 1)) == multiset(AtLeast(r, p))
  {
    if |r| > 0 {
      ClassSplit(r[1..], p);
    }
  }

  lemma {:induction false} FromClassPermutes(r: seq<Ranked>, p: nat)
    requires p <= LOWEST + 1 && forall y | y in r :: y.priority <= LOWEST
    ensures multiset(FromClass(r, p)) == multiset(AtLeast(r, p))
    decreases LOWEST + 1 - p
  {
    if p <= LOWEST {
      FromClassPermutes(r, p + 1);
      SortPermutes(OfClass(r, p));
      ClassSplit(r, p);
    } else {
      NoneAbove(r, p);
    }
  }

  lemma {:induction false} NoneAbove(r: seq<Ranked>, p: nat)
    requires p > LOWEST && forall y | y in r :: y.priority <= LOWEST
    ensures AtLeast(r, p) == []
  {
    if |r| > 0 {
      assert r[0] in r;
      NoneAbove(r[1..], p);
    }
  }

  lemma {:induction false} AllAtLeast(r: seq<Ranked>)
    ensures AtLeast(r, 0) == r
  {
    if |r| > 0 {
      AllAtLeast(r[1..]);
    }
  }

  /**
   * The new queue holds the same streams, strictly ordered by class, time of enqueueing and old position;
   * this determines it.
   */
  lemma {:induction false} ReorderedSorted(items: seq<Item>)
    ensures Sorted(Reordered(items))
    ensures multiset(Reordered(items)) == multiset(Rank(items, |items|))
  {
    var r := Rank(items, |items|);
    assert InOrder(r) by {
      forall i: nat, j: nat | i < j < |r| ensures After(r, i, j) {
      }
    }
    FromClassSorted(r, 0);
    FromClassPermutes(r, 0);
    AllAtLeast(r);
  }

  lemma {:induction false} OfClassSnoc(r: seq<Ranked>, x: Ranked, p: nat)
    ensures OfClass(r + [x], p) == if x.priority == p then OfClass(r, p) + [x] else OfClass(r, p)
  {
    if |r| == 0 {
      assert (r + [x])[1..] == [];
    } else {
      assert (r + [x])[1..] == r[1..] + [x];
      OfClassSnoc(r[1..], x, p);
    }
  }

  /** Distributes the queue over five lists, sorts each and joins them (lines 294-347). */
  method ReplaceWithDynamicQueue(items: seq<Item>) returns (r: seq<Ranked>)
    ensures r == Reordered(items)
  {
    var c0, c1, c2, c3, c4: seq<Ranked> := [], [], [], [], [];
    var seenScript := false;
    for i := 0 to |items|
      invariant seenScript <==> exists j | 0 <= j < i :: items[j].resourceType == Script
      invariant c0 == OfClass(Rank(items, i), 0) && c1 == OfClass(Rank(items, i), 1) && c2 == OfClass(Rank(items, i), 2)
      invariant c3 == OfClass(Rank(items, i), 3) && c4 == OfClass(Rank(items, i), 4)
    {
      var p := Priority(items, i);
      var x := Ranked(items[i], p, i);
      forall k: nat
        ensures OfClass(Rank(items, i + 1), k)
                == if p == k then OfClass(Rank(items, i), k) + [x] else OfClass(Rank(items, i), k)
      {
        OfClassSnoc(Rank(items, i), x, k);
      }
      var ty := items[i].resourceType;
      if ty == Document || ty == Stylesheet || ty == Font {
        c0 := c0 + [x];
      } else if ty == Script {
        if !seenScript {
          c1 := c1 + [x];
          seenScript := true;
        } else {
          c2 := c2 + [x];
        }
      } else if ty == Xhr {
        c1 := c1 + [x];
      } else if ty == Image {
        c3 := c3 + [x];
      } else {
        c4 := c4 + [x];
      }
    }
    r := SortByTime(c0) + SortByTime(c1) + SortByTime(c2) + SortByTime(c3) + SortByTime(c4);
    JoinClasses(Rank(items, |items|));
  }

  lemma {:induction false} JoinClasses(r: seq<Ranked>)
    ensures SortByTime(OfClass(r, 0)) + SortByTime(OfClass(r, 1)) + SortByTime(OfClass(r, 2))
            + SortByTime(OfClass(r, 3)) + SortByTime(OfClass(r, 4))
            == FromClass(r, 0)
  {
    var a, b, c := SortByTime(OfClass(r, 0)), SortByTime(OfClass(r, 1)), SortByTime(OfClass(r, 2));
    var d, e := SortByTime(OfClass(r, 3)), SortByTime(OfClass(r, 4));
    assert FromClass(r, 5) == [];
    assert FromClass(r, 4) == e;
    assert FromClass(r, 3) == d + e;
    assert FromClass(r, 2) == c + (d + e);
    assert FromClass(r, 1) == b + (c + (d + e));
    assert FromClass(r, 0) == a + (b + (c + (d + e)));
    Seqs.Assoc5(a, b, c, d, e);
  }

  /** Documents, stylesheets and fonts. */
  predicate RenderBlocking(t: ResourceType) {
    t in {Document, Stylesheet, Font}
  }

  /** A script with no other script in front of it. */
  predicate FirstScript(items: seq<Item>, i: nat)
    requires i < |items|
  {
    items[i].resourceType == Script && forall j | 0 <= j < i :: items[j].resourceType != Script
  }

  /** Whether the type of item i puts it in front of item j, whenever they were enqueued. */
  predicate Outranks(items: seq<Item>, i: nat, j: nat)
    requires i < |items| && j < |items|
  {
    var a, b := items[i].resourceType, items[j].resourceType;
    || (RenderBlocking(a) && !RenderBlocking(b))
    || ((a == Xhr || FirstScript(items, i)) && ((b == Script && !FirstScript(items, j)) || b in {Image, OtherType}))
    || (a == Script && b in {Image, OtherType})
    || (a == Image && b == OtherType)
  }

  lemma {:induction false} TypesRank(items: seq<Item>, i: nat, j: nat)
    requires i < |items| && j < |items|
    ensures Priority(items, i) < Priority(items, j) <==> Outranks(items, i, j)
  {
  }

  /**
   * In the new queue, of two streams the one whose type outranks the other's comes first; if neither does,
   * the one enqueued earlier, then the one that was in front.
   */
  lemma {:induction false} OrderByType(items: seq<Item>, k: nat, m: nat)
    requires k < m < |Reordered(items)|
    ensures var a, b := Reordered(items)[k], Reordered(items)[m];
            && a.position < |items| && b.position < |items| && a.position != b.position
            && a.item == items[a.position] && b.item == items[b.position]
            && (|| Outranks(items, a.position, b.position)
                || (!Outranks(items, b.position, a.position)
                    && (a.item.enqueuedAt < b.item.enqueuedAt
                        || (a.item.enqueuedAt == b.item.enqueuedAt && a.position < b.position))))
  {
    var r, o := Rank(items, |items|), Reordered(items);
    ReorderedSorted(items);
    SameMembers(o, r, o[k]);
    SameMembers(o, r, o[m]);
    assert PrecedesAt(o, k, m);
    TypesRank(items, o[k].position, o[m].position);
    TypesRank(items, o[m].position, o[k].position);
  }
}
