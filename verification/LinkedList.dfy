/** The doubly linked ring list (quic-go/core/utils/linkedlist/linkedlist.go). */
module LinkedList {
  class Element<T> {
    var next: Element?<T>
    var prev: Element?<T>
    var list: List?<T>
    var value: T

    constructor (v: T)
      ensures next == null && prev == null && list == null && value == v
    {
      next, prev, list, value := null, null, null, v;
    }
  }

  ghost predicate Linked<T>(r: seq<Element<T>>, i: nat)
    requires i + 1 < |r|
    reads r[i], r[i + 1]
  {
    r[i].next == r[i + 1] && r[i + 1].prev == r[i]
  }

  ghost predicate Differ<T>(es: seq<Element<T>>, i: nat, j: nat)
    requires i < j < |es|
  {
    es[i] != es[j]
  }

  /** The elements in order, between two occurrences of the sentinel. */
  ghost function Ring<T>(root: Element<T>, es: seq<Element<T>>): (r: seq<Element<T>>)
    ensures |r| == |es| + 2
  {
    [root] + es + [root]
  }

  ghost predicate Distinct<T>(root: Element<T>, es: seq<Element<T>>) {
    && (forall i: nat, j: nat | i < j < |es| :: Differ(es, i, j))
    && root !in es
  }

  /** Only the sentinel occurs twice in the ring, at its ends. */
  lemma {:induction false} RingDistinct<T>(root: Element<T>, es: seq<Element<T>>, i: nat, j: nat)
    requires Distinct(root, es) && i < j <= |es| + 1 && !(i == 0 && j == |es| + 1)
    ensures Ring(root, es)[i] != Ring(root, es)[j]
  {
    if i > 0 && j <= |es| {
      assert Differ(es, i - 1, j - 1);
    }
  }

  /** Where the k-th link of the ring without its element i comes from, and that no other link changes. */
  lemma {:induction false} RemovedRing<T>(root: Element<T>, es: seq<Element<T>>, i: nat, k: nat)
    requires Distinct(root, es) && i < |es| && k < |es|
    ensures var r, r' := Ring(root, es), Ring(root, Removed(es, i));
            && r'[i] == r[i] && r'[i + 1] == r[i + 2]
            && (k < i ==> r'[k] == r[k] && r'[k + 1] == r[k + 1] && r[k] != r[i] && r[k] != r[i + 1])
            && (k < i ==> r[k + 1] != r[i + 1] && r[k + 1] != r[i + 2])
            && (k > i ==> r'[k] == r[k + 1] && r'[k + 1] == r[k + 2] && r[k + 1] != r[i + 1] && r[k + 2] != r[i + 1])
            && (k > i ==> r[k + 1] != r[i] && r[k + 2] != r[i + 2])
  {
    if k < i {
      RingDistinct(root, es, k, i);
      RingDistinct(root, es, k, i + 1);
      RingDistinct(root, es, k + 1, i + 1);
      RingDistinct(root, es, k + 1, i + 2);
    } else if k > i {
      RingDistinct(root, es, i + 1, k + 1);
      RingDistinct(root, es, i + 1, k + 2);
      RingDistinct(root, es, i, k + 1);
      RingDistinct(root, es, i + 2, k + 2);
    }
  }

  ghost function Inserted<T>(s: seq<T>, i: nat, x: T): seq<T>
    requires i <= |s|
  {
    s[..i] + [x] + s[i..]
  }

  ghost function Removed<T>(s: seq<T>, i: nat): seq<T>
    requires i < |s|
  {
    s[..i] + s[i + 1..]
  }

  lemma {:induction false} InsertedDistinct<T>(root: Element<T>, es: seq<Element<T>>, i: nat, e: Element<T>)
    requires Distinct(root, es) && i <= |es| && e !in es && e != root
    ensures Distinct(root, Inserted(es, i, e))
  {
    var es' := Inserted(es, i, e);
    forall a: nat, b: nat | a < b < |es'| ensures Differ(es', a, b) {
      if a != i && b != i {
        assert Differ(es, if a < i then a else a - 1, if b < i then b else b - 1);
      } else if a == i {
        assert es'[b] == es[b - 1];
      } else {
        assert es'[a] == es[a];
      }
    }
  }

  lemma {:induction false} RemovedDistinct<T>(root: Element<T>, es: seq<Element<T>>, i: nat)
    requires Distinct(root, es) && i < |es|
    ensures Distinct(root, Removed(es, i)) && es[i] !in Removed(es, i)
  {
    var es' := Removed(es, i);
    forall a: nat, b: nat | a < b < |es'| ensures Differ(es', a, b) {
      assert Differ(es, if a < i then a else a + 1, if b < i then b else b + 1);
    }
    forall a | 0 <= a < |es'| ensures es'[a] != es[i] {
      assert a < i ==> Differ(es, a, i);
      assert a >= i ==> Differ(es, i, a + 1);
    }
  }

  /** The position of an element of the list. */
  ghost function Pos<T>(es: seq<Element<T>>, e: Element<T>): (i: nat)
    requires e in es
    ensures i < |es| && es[i] == e
  {
    if es[0] == e then 0 else 1 + Pos(es[1..], e)
  }

  /** The elements but for e, in the same order. */
  ghost function Without<T>(es: seq<Element<T>>, e: Element<T>): seq<Element<T>>
    requires e in es
  {
    Removed(es, Pos(es, e))
  }

  class List<T> {
    /** The sentinel: the element after the last and before the first one. */
    const root: Element<T>
    var len: nat
    ghost var elems: seq<Element<T>>

    ghost predicate Valid()
      reads this, root, elems
    {
      && len == |elems| && root.list == null && Distinct(root, elems)
      && (forall i | 0 <= i < |elems| :: elems[i].list == this)
      && (forall i: nat | i <= |elems| :: Linked(Ring(root, elems), i))
    }

    ghost function Values(): (s: seq<T>)
      reads this, elems
      ensures |s| == |elems|
    {
      seq(|elems|, i requires 0 <= i < |elems| reads this, elems => elems[i].value)
    }

    /** A new list; `zero` is the value that the sentinel holds. */
    constructor (zero: T)
      ensures Valid() && elems == [] && fresh(root)
    {
      root := new Element<T>(zero);
      len, elems := 0, [];
      new;
      root.next, root.prev := root, root;
    }

    /** Inserts e behind `at`, which is the i-th element of the ring (lines 87-96). */
    method InsertBehind(e: Element<T>, at: Element<T>, ghost i: nat)
      requires Valid() && i <= |elems| && at == Ring(root, elems)[i]
      requires e !in elems && e != root && e.list == null
      modifies this, e, at, at.next
      ensures Valid() && elems == Inserted(old(elems), i, e)
      ensures e.value == old(e.value) && forall x | x in old(elems) :: x.value == old(x.value)
    {
      ghost var es, r := elems, Ring(root, elems);
      assert Linked(r, i);
      var n := at.next;
      at.next := e;
      e.prev := at;
      e.next := n;
      n.prev := e;
      e.list := this;
      len := len + 1;
      elems := Inserted(es, i, e);
      InsertedDistinct(root, es, i, e);
      ghost var r' := Ring(root, elems);
      forall k: nat | k <= |elems| ensures Linked(r', k) {
        if k < i {
          assert old(Linked(r, k));
          assert r'[k] == r[k] && r'[k + 1] == r[k + 1];
          RingDistinct(root, es, k, i);
          RingDistinct(root, es, k + 1, i + 1);
        } else if k > i + 1 {
          assert old(Linked(r, k - 1));
          assert r'[k] == r[k - 1] && r'[k + 1] == r[k];
          RingDistinct(root, es, i, k - 1);
          RingDistinct(root, es, i + 1, k);
        } else {
          assert r'[i] == at && r'[i + 1] == e && r'[i + 2] == n;
        }
      }
    }
  
    /** Takes out e, the i-th element (lines 104-112). */
    method Unlink(e: Element<T>, ghost i: nat)
      requires Valid() && i < |elems| && e == elems[i]
      modifies this, root, elems
      ensures Valid() && elems == Removed(old(elems), i)
      ensures e !in elems && e != root && e.list == null && e.next == null && e.prev == null
      ensures forall x | x in old(elems) :: x.value == old(x.value)
    {
      ghost var es, r := elems, Ring(root, elems);
      assert Linked(r, i) && Linked(r, i + 1) && r[i + 1] == e;
      RingDistinct(root, es, i, i + 1);
      e.prev.next := e.next;
      e.next.prev := e.prev;
      e.next := null;
      e.prev := null;
      e.list := null;
      len := len - 1;
      elems := Removed(es, i);
      RemovedDistinct(root, es, i);
      ghost var r' := Ring(root, elems);
      forall k: nat | k <= |elems| ensures Linked(r', k) {
        RemovedRing(root, es, i, k);
        assert old(Linked(r, if k < i then k else k + 1));
      }
    }
  
    method Front() returns (e: Element?<T>)
      requires Valid()
      ensures e == if |elems| == 0 then null else elems[0]
    {
      if len == 0 {
        return null;
      }
      assert Linked(Ring(root, elems), 0);
      e := root.next;
    }

    method Back() returns (e: Element?<T>)
      requires Valid()
      ensures e == if |elems| == 0 then null else elems[|elems| - 1]
    {
      if len == 0 {
        return null;
      }
      assert Linked(Ring(root, elems), |elems|);
      e := root.prev;
    }

    /** The element after e, null behind the last one (lines 27-32). */
    method Next(e: Element<T>, ghost i: nat) returns (n: Element?<T>)
      requires Valid() && i < |elems| && e == elems[i]
      ensures n == if i + 1 < |elems| then elems[i + 1] else null
    {
      ghost var r := Ring(root, elems);
      assert Linked(r, i + 1) && r[i + 1] == e;
      if e.list != null && e.next != root {
        return e.next;
      }
      n := null;
    }

    method Prev(e: Element<T>, ghost i: nat) returns (p: Element?<T>)
      requires Valid() && i < |elems| && e == elems[i]
      ensures p == if i > 0 then elems[i - 1] else null
    {
      ghost var r := Ring(root, elems);
      assert Linked(r, i) && r[i + 1] == e;
      if e.list != null && e.prev != root {
        return e.prev;
      }
      p := null;
    }

    /** Removes e if it belongs to this list; elements of other lists stay as they are (lines 117-124). */
    method Remove(e: Element<T>) returns (v: T)
      requires Valid() && (e.list == this ==> e in elems)
      modifies this, root, elems
      ensures Valid() && v == old(e.value)
      ensures if old(e.list) == this
              then elems == Without(old(elems), e)
              else elems == old(elems) && e.list == old(e.list)
      ensures forall x | x in old(elems) :: x.value == old(x.value)
    {
      v := e.value;
      if e.list == this {
        Unlink(e, Pos(elems, e));
      }
    }

    method PushFront(v: T) returns (e: Element<T>)
      requires Valid()
      modifies this, root, root.next
      ensures Valid() && fresh(e) && elems == [e] + old(elems) && Values() == [v] + old(Values())
      ensures forall x | x in old(elems) :: x.value == old(x.value)
    {
      e := new Element<T>(v);
      InsertBehind(e, root, 0);
    }

    method PushBack(v: T) returns (e: Element<T>)
      requires Valid()
      modifies this, root, root.prev
      ensures Valid() && fresh(e) && elems == old(elems) + [e] && Values() == old(Values()) + [v]
      ensures forall x | x in old(elems) :: x.value == old(x.value)
    {
      e := new Element<T>(v);
      assert Linked(Ring(root, elems), |elems|);
      InsertBehind(e, root.prev, |elems|);
    }

    /** Inserts v before mark; nothing happens if mark belongs to another list (lines 141-147). */
    method InsertBefore(v: T, mark: Element<T>) returns (e: Element?<T>)
      requires Valid() && (mark.list == this ==> mark in elems)
      modifies this, root, elems
      ensures Valid()
      ensures if old(mark.list) == this
              then e != null && fresh(e) && e.value == v && elems == Inserted(old(elems), Pos(old(elems), mark), e)
              else e == null && elems == old(elems)
      ensures forall x | x in old(elems) :: x.value == old(x.value)
    {
      if mark.list != this {
        return null;
      }
      ghost var i := Pos(elems, mark);
      assert Linked(Ring(root, elems), i) && Ring(root, elems)[i + 1] == mark;
      e := new Element<T>(v);
      InsertBehind(e, mark.prev, i);
    }

    method InsertAfter(v: T, mark: Element<T>) returns (e: Element?<T>)
      requires Valid() && (mark.list == this ==> mark in elems)
      modifies this, root, elems
      ensures Valid()
      ensures if old(mark.list) == this
              then e != null && fresh(e) && e.value == v && elems == Inserted(old(elems), Pos(old(elems), mark) + 1, e)
              else e == null && elems == old(elems)
      ensures forall x | x in old(elems) :: x.value == old(x.value)
    {
      if mark.list != this {
        return null;
      }
      e := new Element<T>(v);
      assert Linked(Ring(root, elems), Pos(elems, mark) + 1);
      InsertBehind(e, mark, Pos(elems, mark) + 1);
    }

    method MoveToFront(e: Element<T>)
      requires Valid() && (e.list == this ==> e in elems)
      modifies this, root, elems
      ensures Valid() && elems == if old(e.list) == this then [e] + Without(old(elems), e) else old(elems)
      ensures forall x | x in old(elems) :: x.value == old(x.value)
    {
      assert Linked(Ring(root, elems), 0);
      if e.list != this || root.next == e {
        return;
      }
      Unlink(e, Pos(elems, e));
      assert Linked(Ring(root, elems), 0);
      InsertBehind(e, root, 0);
    }

    method MoveToBack(e: Element<T>)
      requires Valid() && (e.list == this ==> e in elems)
      modifies this, root, elems
      ensures Valid() && elems == if old(e.list) == this then Without(old(elems), e) + [e] else old(elems)
      ensures forall x | x in old(elems) :: x.value == old(x.value)
    {
      assert Linked(Ring(root, elems), |elems|);
      if e.list != this || root.prev == e {
        if e.list == this {
          LastPos(root, elems, e);
        }
        return;
      }
      Unlink(e, Pos(elems, e));
      assert Linked(Ring(root, elems), |elems|);
      InsertBehind(e, root.prev, |elems|);
    }

    /** Moves e to the place before mark, both of this list and different (lines 185-190). */
    method MoveBefore(e: Element<T>, mark: Element<T>)
      requires Valid() && (e.list == this ==> e in elems) && (mark.list == this ==> mark in elems)
      modifies this, root, elems
      ensures Valid()
      ensures if old(e.list) == this && e != mark && old(mark.list) == this
              then && mark in Without(old(elems), e)
                   && elems == Inserted(Without(old(elems), e), Pos(Without(old(elems), e), mark), e)
              else elems == old(elems)
      ensures forall x | x in old(elems) :: x.value == old(x.value)
    {
      if e.list != this || e == mark || mark.list != this {
        return;
      }
      StillThere(elems, e, mark);
      Unlink(e, Pos(elems, e));
      ghost var i := Pos(elems, mark);
      assert Linked(Ring(root, elems), i) && Ring(root, elems)[i + 1] == mark;
      InsertBehind(e, mark.prev, i);
    }

    method MoveAfter(e: Element<T>, mark: Element<T>)
      requires Valid() && (e.list == this ==> e in elems) && (mark.list == this ==> mark in elems)
      modifies this, root, elems
      ensures Valid()
      ensures if old(e.list) == this && e != mark && old(mark.list) == this
              then && mark in Without(old(elems), e)
                   && elems == Inserted(Without(old(elems), e), Pos(Without(old(elems), e), mark) + 1, e)
              else elems == old(elems)
      ensures forall x | x in old(elems) :: x.value == old(x.value)
    {
      if e.list != this || e == mark || mark.list != this {
        return;
      }
      StillThere(elems, e, mark);
      Unlink(e, Pos(elems, e));
      assert Linked(Ring(root, elems), Pos(elems, mark) + 1);
      InsertBehind(e, mark, Pos(elems, mark) + 1);
    }

    /** The elements and sentinel of another list are not part of this one. */
    ghost predicate Apart(other: List<T>)
      reads this
    {
      other != this ==> other.root != root
    }

    /** Appends a copy of e, the k-th element of `other`, and moves on. */
    method AppendCopy(other: List<T>, e: Element<T>, ghost k: nat) returns (n: Element?<T>)
      requires Valid() && other.Valid() && Apart(other) && k < |other.elems| && e == other.elems[k]
      modifies this, root, root.prev
      ensures Valid() && other.Valid()
      ensures |elems| == |old(elems)| + 1 && old(elems) <= elems && root.prev != null && fresh(root.prev)
      ensures Values() == old(Values()) + [old(e.value)]
      ensures old(other.elems) <= other.elems && old(other.Values()) <= other.Values()
      ensures other != this ==> other.elems == old(other.elems)
      ensures k + 1 < |other.elems| ==> n == other.elems[k + 1]
    {
      assert Linked(Ring(root, elems), |elems|);
      var x := PushBack(e.value);
      assert Linked(Ring(root, elems), |elems|);
      assert other.elems[k] == e;
      n := other.Next(e, k);
    }

    /** What was copied so far: the first k values. */
    ghost predicate Copied(before: seq<Element<T>>, old': seq<T>, vs: seq<T>, k: nat)
      reads this, elems
    {
      k <= |vs| && |elems| == |before| + k && before <= elems && Values() == old' + vs[..k]
    }

    lemma {:induction false} CopiedOne(before: seq<Element<T>>, old': seq<T>, vs: seq<T>, k: nat, values: seq<T>)
      requires k < |vs| && |elems| == |before| + k + 1 && before <= elems
      requires values == old' + vs[..k] && Values() == values + [vs[k]]
      ensures Copied(before, old', vs, k + 1)
    {
      assert vs[..k + 1] == vs[..k] + [vs[k]];
    }

    lemma {:induction false} CopiedNone(vs: seq<T>)
      ensures Copied(elems, Values(), vs, 0)
    {
      assert Values() + vs[..0] == Values();
    }

    lemma {:induction false} CopiedAll(before: seq<Element<T>>, old': seq<T>, vs: seq<T>)
      requires Copied(before, old', vs, |vs|)
      ensures Values() == old' + vs && |elems| == |before| + |vs| && before <= elems
    {
      assert vs[..|vs|] == vs;
    }

    /** The loop of PushBackList: walks the source, one copy for each element. */
    method AppendAll(other: List<T>, ghost es: seq<Element<T>>, ghost values: seq<T>, ghost vs: seq<T>)
      requires Valid() && other.Valid() && Apart(other)
      requires es == elems && values == Values() && vs == other.Values()
      modifies this, root, elems
      ensures Valid() && Copied(es, values, vs, |vs|)
      ensures other != this ==> other.Valid() && other.elems == old(other.elems)
    {
      var i := other.len;
      var e := other.Front();
      ghost var k := 0;
      CopiedNone(vs);
      assert Linked(Ring(root, elems), |elems|);
      while i > 0
        invariant 0 <= k == |vs| - i && Valid() && other.Valid() && Apart(other)
        invariant Copied(es, values, vs, k) && root.prev != null
        invariant root.prev == root || root.prev in old(elems) || fresh(root.prev)
        invariant vs <= other.Values() && (other != this ==> other.elems == old(other.elems))
        invariant i > 0 ==> e == other.elems[k]
      {
        assert e.value == other.Values()[k] == vs[k];
        ghost var now := Values();
        e := AppendCopy(other, e, k);
        CopiedOne(es, values, vs, k, now);
        i, k := i - 1, k + 1;
      }
    }

    /** Appends a copy of a list, which may be this one (lines 204-209). */
    method PushBackList(other: List<T>)
      requires Valid() && other.Valid() && Apart(other)
      modifies this, root, elems
      ensures Valid() && Values() == old(Values()) + old(other.Values())
      ensures |elems| == |old(elems)| + |old(other.elems)| && old(elems) <= elems
      ensures other != this ==> other.Valid() && other.elems == old(other.elems)
    {
      ghost var es, values, vs := elems, Values(), other.Values();
      AppendAll(other, es, values, vs);
      CopiedAll(es, values, vs);
    }

    /** Prepends a copy of e, the k-th element of `other`, and moves back. */
    method PrependCopy(other: List<T>, e: Element<T>, ghost k: nat) returns (p: Element?<T>)
      requires Valid() && other.Valid() && Apart(other) && k < |other.elems| && e == other.elems[k]
      modifies this, root, root.next
      ensures Valid() && other.Valid()
      ensures |elems| == |old(elems)| + 1 && elems[1..] == old(elems) && root.next != null && fresh(root.next)
      ensures Values() == [old(e.value)] + old(Values())
      ensures other != this ==> other.elems == old(other.elems) && other.Values() == old(other.Values())
      ensures k > 0 ==> p == old(other.elems)[k - 1]
    {
      assert Linked(Ring(root, elems), 0);
      var x := PushFront(e.value);
      assert Linked(Ring(root, elems), 0);
      ghost var j := if other == this then k + 1 else k;
      assert other.elems[j] == e;
      p := other.Prev(e, j);
    }

    /** What was copied so far: the last k values. */
    ghost predicate CopiedBack(before: seq<Element<T>>, old': seq<T>, vs: seq<T>, k: nat)
      reads this, elems
    {
      k <= |vs| && |elems| == |before| + k && elems[k..] == before && Values() == vs[|vs| - k..] + old'
    }

    lemma {:induction false} CopiedBackOne(before: seq<Element<T>>, old': seq<T>, vs: seq<T>, k: nat,
                                           es: seq<Element<T>>, values: seq<T>)
      requires k < |vs| && |es| == |before| + k && es[k..] == before && |elems| == |es| + 1 && elems[1..] == es
      requires values == vs[|vs| - k..] + old' && Values() == [vs[|vs| - k - 1]] + values
      ensures CopiedBack(before, old', vs, k + 1)
    {
      assert elems[k + 1..] == elems[1..][k..];
      assert vs[|vs| - k - 1..] == [vs[|vs| - k - 1]] + vs[|vs| - k..];
    }

    lemma {:induction false} CopiedBackNone(vs: seq<T>)
      ensures CopiedBack(elems, Values(), vs, 0)
    {
      assert elems[0..] == elems && vs[|vs|..] + Values() == Values();
    }

    lemma {:induction false} CopiedBackAll(before: seq<Element<T>>, old': seq<T>, vs: seq<T>)
      requires CopiedBack(before, old', vs, |vs|)
      ensures Values() == vs + old' && |elems| == |before| + |vs| && elems[|vs|..] == before
    {
      assert vs[0..] == vs;
    }

    ghost predicate Untouched(other: List<T>, src: seq<Element<T>>, vs: seq<T>)
      reads other, other.elems
    {
      other != this ==> other.elems == src && other.Values() == vs
    }

    /** One round of PushFrontList: copies the i-th element of the source. */
    method PrependNext(other: List<T>, e: Element<T>, ghost es: seq<Element<T>>, ghost src: seq<Element<T>>,
                       ghost values: seq<T>, ghost vs: seq<T>, ghost k: nat, ghost i: nat)
      returns (p: Element?<T>)
      requires Valid() && other.Valid() && Apart(other) && 0 < i && k == |vs| - i && |src| == |vs| && e == src[i - 1]
      requires CopiedBack(es, values, vs, k) && Untouched(other, src, vs)
               && (other == this ==> src == es && vs == values)
      modifies this, root, root.next
      ensures Valid() && other.Valid() && root.next != null && fresh(root.next)
      ensures CopiedBack(es, values, vs, k + 1) && Untouched(other, src, vs)
      ensures i > 1 ==> p == src[i - 2]
    {
      ghost var j := if other == this then k + i - 1 else i - 1;
      SourceAt(other, src, vs, values, k, i, j);
      ghost var before, now := elems, Values();
      p := PrependCopy(other, e, j);
      CopiedBackOne(es, values, vs, k, before, now);
    }

    /** The loop of PushFrontList: walks the source backwards, one copy for each element. */
    method PrependAll(other: List<T>, ghost es: seq<Element<T>>, ghost src: seq<Element<T>>, ghost values: seq<T>,
                      ghost vs: seq<T>)
      requires Valid() && other.Valid() && Apart(other)
      requires es == elems && src == other.elems && values == Values() && vs == other.Values()
      modifies this, root, elems
      ensures Valid() && (other != this ==> other.Valid())
      ensures CopiedBack(es, values, vs, |vs|) && Untouched(other, src, vs)
    {
      var i := other.len;
      var e := other.Back();
      ghost var k := 0;
      CopiedBackNone(vs);
      assert Linked(Ring(root, elems), 0);
      while i > 0
        invariant 0 <= k == |vs| - i && Valid() && other.Valid() && Apart(other)
        invariant CopiedBack(es, values, vs, k) && root.next != null
        invariant root.next == root || root.next in old(elems) || fresh(root.next)
        invariant Untouched(other, src, vs)
        invariant i > 0 ==> e == src[i - 1]
      {
        e := PrependNext(other, e, es, src, values, vs, k, i);
        i, k := i - 1, k + 1;
      }
    }

    /** Prepends a copy of a list, which may be this one (lines 213-218). */
    method PushFrontList(other: List<T>)
      requires Valid() && other.Valid() && Apart(other)
      modifies this, root, elems
      ensures Valid() && Values() == old(other.Values()) + old(Values())
      ensures |elems| == |old(elems)| + |old(other.elems)| && elems[|old(other.elems)|..] == old(elems)
      ensures other != this ==> other.Valid() && other.elems == old(other.elems)
    {
      ghost var es, values, vs := elems, Values(), other.Values();
      PrependAll(other, es, other.elems, values, vs);
      CopiedBackAll(es, values, vs);
    }

    /** Where the source element is now: behind the copies if the list is copied onto itself. */
    lemma {:induction false} SourceAt(other: List<T>, src: seq<Element<T>>, vs: seq<T>, values: seq<T>, k: nat, i: nat,
                                      j: nat)
      requires 0 < i && k == |vs| - i && |src| == |vs|
      requires if other == this
               then j == k + i - 1 && CopiedBack(src, vs, vs, k)
               else j == i - 1 && other.elems == src && other.Values() == vs
      ensures j < |other.elems| && other.elems[j] == src[i - 1] && other.elems[j].value == vs[i - 1]
      ensures j > 0 && i > 1 ==> other.elems[j - 1] == src[i - 2]
    {
      if other == this {
        assert elems[k..][i - 1] == elems[j];
        assert Values()[j] == vs[i - 1];
        assert i > 1 ==> elems[k..][i - 2] == elems[j - 1];
      }
    }
  }

  lemma {:induction false} LastPos<T>(root: Element<T>, es: seq<Element<T>>, e: Element<T>)
    requires Distinct(root, es) && e in es && es[|es| - 1] == e
    ensures Pos(es, e) == |es| - 1 && Without(es, e) + [e] == es
  {
    var i := Pos(es, e);
    assert i < |es| - 1 ==> Differ(es, i, |es| - 1);
  }

  lemma {:induction false} StillThere<T>(es: seq<Element<T>>, e: Element<T>, x: Element<T>)
    requires e in es && x in es && x != e
    ensures x in Without(es, e)
  {
    var i, j := Pos(es, e), Pos(es, x);
    assert Without(es, e)[if j < i then j else j - 1] == x;
  }
}
