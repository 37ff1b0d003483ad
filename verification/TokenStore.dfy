/** The least-recently-used store of tokens by origin (lruTokenStore in quic-go/token_store.go). */
module TokenStore {
  import opened Protocol
  import opened TokenRing

  // The reference: a list of origins, most recently used first.

  datatype Origin = Origin(key: string, tokens: seq<ClientToken>)

  /** The position of the origin with this key, or the length of the list. */
  function Find(s: seq<Origin>, key: string): (i: nat)
    ensures i <= |s| && (i < |s| ==> s[i].key == key)
  {
    if |s| == 0 || s[0].key == key then 0 else 1 + Find(s[1..], key)
  }

  function ToFront(s: seq<Origin>, i: nat, o: Origin): seq<Origin>
    requires i < |s|
  {
    [o] + s[..i] + s[i + 1..]
  }

  /** A token makes its origin the most recent one; a full list forgets the least recent origin. */
  function Put(s: seq<Origin>, capacity: nat, size: nat, key: string, t: ClientToken): seq<Origin>
    requires capacity > 0
  {
    var i := Find(s, key);
    if i < |s| then ToFront(s, i, Origin(key, Newest([t] + s[i].tokens, size)))
    else if |s| < capacity then [Origin(key, [t])] + s
    else [Origin(key, [t])] + s[..|s| - 1]
  }

  /** The newest token of an origin; an origin without tokens disappears. */
  function Take(s: seq<Origin>, key: string): (Option<ClientToken>, seq<Origin>)
  {
    var i := Find(s, key);
    if i == |s| || |s[i].tokens| == 0 then (None, s)
    else if |s[i].tokens| == 1 then (Some(s[i].tokens[0]), s[..i] + s[i + 1..])
    else (Some(s[i].tokens[0]), ToFront(s, i, Origin(key, s[i].tokens[1..])))
  }

  // The store: list elements with an index from keys to elements.

  datatype Entry = Entry(key: string, cache: Ring)

  /** `q` lists the elements, `m` finds them by key, and `heap` holds what they point to. */
  datatype Store = Store(m: map<string, nat>, q: seq<nat>, heap: map<nat, Entry>, capacity: nat, size: nat,
                         nextElement: nat)

  function NewStore(capacity: nat, size: nat): Store {
    Store(map[], [], map[], capacity, size, 0)
  }

  function IndexOf(q: seq<nat>, el: nat): (i: nat)
    ensures i <= |q| && (i < |q| ==> q[i] == el)
  {
    if |q| == 0 || q[0] == el then 0 else 1 + IndexOf(q[1..], el)
  }

  function MoveToFront(q: seq<nat>, el: nat): seq<nat> {
    var i := IndexOf(q, el);
    if i < |q| then [el] + q[..i] + q[i + 1..] else q
  }

  function RemoveElement(q: seq<nat>, el: nat): seq<nat> {
    var i := IndexOf(q, el);
    if i < |q| then q[..i] + q[i + 1..] else q
  }

  ghost predicate OtherKey(q: seq<nat>, heap: map<nat, Entry>, i: nat, j: nat)
    requires i < j < |q|
  {
    q[i] in heap && q[j] in heap ==> heap[q[i]].key != heap[q[j]].key && q[i] != q[j]
  }

  ghost predicate EntryOk(s: Store, i: nat)
    requires i < |s.q|
  {
    && s.q[i] in s.heap && s.q[i] < s.nextElement
    && Valid(s.heap[s.q[i]].cache) && |s.heap[s.q[i]].cache.tokens| == s.size && s.heap[s.q[i]].cache.len > 0
    && s.heap[s.q[i]].key in s.m && s.m[s.heap[s.q[i]].key] == s.q[i]
  }

  ghost predicate KeyOk(s: Store, key: string)
    requires key in s.m
  {
    s.m[key] in s.q && s.m[key] in s.heap && s.heap[s.m[key]].key == key
  }

  /** Map and list agree, keys are different, and every stored origin has a token. */
  ghost predicate Inv(s: Store) {
    && s.capacity > 0 && s.size > 0 && |s.q| <= s.capacity
    && (forall i: nat | i < |s.q| :: EntryOk(s, i))
    && (forall i: nat, j: nat | i < j < |s.q| :: OtherKey(s.q, s.heap, i, j))
    && (forall key | key in s.m :: KeyOk(s, key))
  }

  ghost function OriginAt(s: Store, i: nat): Origin
    requires i < |s.q| && EntryOk(s, i)
  {
    Origin(s.heap[s.q[i]].key, Contents(s.heap[s.q[i]].cache))
  }

  /** What the store means. */
  ghost function Abs(s: Store): (r: seq<Origin>)
    requires Inv(s)
    ensures |r| == |s.q|
  {
    seq(|s.q|, i requires 0 <= i < |s.q| => (assert EntryOk(s, i); OriginAt(s, i)))
  }

  /** The elements that an operation on this key looks at exist. */
  predicate Points(s: Store, key: string) {
    && s.size > 0
    && (key in s.m ==> s.m[key] in s.heap && s.heap[s.m[key]].cache.p < |s.heap[s.m[key]].cache.tokens|)
    && (|s.q| >= s.capacity ==> |s.q| > 0 && s.q[|s.q| - 1] in s.heap)
  }

  lemma {:induction false} InvPoints(s: Store, key: string)
    requires Inv(s)
    ensures Points(s, key)
  {
    if key in s.m {
      assert KeyOk(s, key);
      var i :| 0 <= i < |s.q| && s.q[i] == s.m[key];
      assert EntryOk(s, i);
    }
    if |s.q| > 0 {
      assert EntryOk(s, |s.q| - 1);
    }
  }

  /** Stores a token (lines 71-100). */
  function PutToken(s: Store, key: string, t: ClientToken): Store
    requires Points(s, key)
  {
    if key in s.m then
      var el := s.m[key];
      s.(heap := s.heap[el := Entry(s.heap[el].key, Add(s.heap[el].cache, t))], q := MoveToFront(s.q, el))
    else if |s.q| < s.capacity then
      var el := s.nextElement;
      s.(heap := s.heap[el := Entry(key, Add(NewRing(s.size), t))],
         q := [el] + s.q,
         m := s.m[key := el],
         nextElement := el + 1)
    else
      var el := s.q[|s.q| - 1];
      var m := s.m - {s.heap[el].key};
      s.(heap := s.heap[el := Entry(key, Add(NewRing(s.size), t))], q := MoveToFront(s.q, el), m := m[key := el])
  }

  /** Takes a token (lines 102-117). */
  function PopToken(s: Store, key: string): (Option<ClientToken>, Store)
    requires Points(s, key)
  {
    if key !in s.m then (None, s)
    else
      var el := s.m[key];
      var r := Pop(s.heap[el].cache);
      var s' := s.(heap := s.heap[el := s.heap[el].(cache := r.1)], q := MoveToFront(s.q, el));
      (r.0, if r.1.len == 0 then s'.(q := RemoveElement(s'.q, el), m := s.m - {key}) else s')
  }

  lemma {:induction false} FindIs(s: seq<Origin>, key: string, i: nat)
    requires i < |s| && s[i].key == key && forall j | 0 <= j < i :: s[j].key != key
    ensures Find(s, key) == i
  {
    if i > 0 {
      assert s[0].key != key;
      FindIs(s[1..], key, i - 1);
    }
  }

  lemma {:induction false} FindNone(s: seq<Origin>, key: string)
    requires forall j | 0 <= j < |s| :: s[j].key != key
    ensures Find(s, key) == |s|
  {
    if |s| > 0 {
      assert s[0].key != key;
      FindNone(s[1..], key);
    }
  }

  lemma {:induction false} IndexIs(q: seq<nat>, i: nat)
    requires i < |q| && forall j | 0 <= j < i :: q[j] != q[i]
    ensures IndexOf(q, q[i]) == i
  {
    if i > 0 {
      assert q[0] != q[i];
      IndexIs(q[1..], i - 1);
    }
  }

  /** The element that the map finds is where the reference finds its key. */
  lemma {:induction false} Agree(s: Store, key: string) returns (i: nat)
    requires Inv(s) && key in s.m
    ensures i < |s.q| && s.q[i] == s.m[key] && EntryOk(s, i) && s.heap[s.q[i]].key == key
    ensures Find(Abs(s), key) == i && IndexOf(s.q, s.m[key]) == i
    ensures forall j: nat | j < |s.q| && j != i :: s.q[j] != s.q[i]
  {
    assert KeyOk(s, key);
    i :| 0 <= i < |s.q| && s.q[i] == s.m[key];
    forall j: nat | j < |s.q| && j != i ensures s.q[j] != s.q[i] && Abs(s)[j].key != key {
      assert EntryOk(s, i) && EntryOk(s, j);
      assert j < i ==> OtherKey(s.q, s.heap, j, i);
      assert i < j ==> OtherKey(s.q, s.heap, i, j);
    }
    FindIs(Abs(s), key, i);
    IndexIs(s.q, i);
  }

  lemma {:induction false} Absent(s: Store, key: string)
    requires Inv(s) && key !in s.m
    ensures Find(Abs(s), key) == |Abs(s)|
  {
    forall j | 0 <= j < |s.q| ensures Abs(s)[j].key != key {
      assert EntryOk(s, j);
    }
    FindNone(Abs(s), key);
  }

  /** Where the element at position k comes from when the one at position i moves to the front. */
  function Source(i: nat, k: nat): nat {
    if k == 0 then i else if k <= i then k - 1 else k
  }

  lemma {:induction false} Moved(q: seq<nat>, i: nat)
    requires i < |q| && forall j: nat | j < |q| && j != i :: q[j] != q[i]
    ensures IndexOf(q, q[i]) == i
    ensures |MoveToFront(q, q[i])| == |q|
    ensures forall k: nat | k < |q| :: Source(i, k) < |q| && MoveToFront(q, q[i])[k] == q[Source(i, k)]
  {
    IndexIs(q, i);
  }

  lemma {:induction false} MovedSeq<T>(s: seq<T>, r: seq<T>, i: nat, x: T)
    requires i < |s| && |r| == |s| && r[0] == x
    requires forall k: nat | 0 < k < |s| :: Source(i, k) < |s| && r[k] == s[Source(i, k)]
    ensures r == [x] + s[..i] + s[i + 1..]
  {
    var m := [x] + s[..i] + s[i + 1..];
    forall k | 0 <= k < |s| ensures r[k] == m[k] {
      assert k > 0 ==> r[k] == s[Source(i, k)];
    }
  }

  /** The element at position i gets a new entry and moves to the front, and the map follows. */
  ghost predicate Fronted(s: Store, i: nat, e: Entry, s': Store) {
    && Inv(s) && i < |s.q| && EntryOk(s, i) && (forall j: nat | j < |s.q| && j != i :: s.q[j] != s.q[i])
    && Valid(e.cache) && |e.cache.tokens| == s.size && e.cache.len > 0
    && (e.key != s.heap[s.q[i]].key ==> e.key !in s.m)
    && s' == s.(heap := s.heap[s.q[i] := e],
                q := MoveToFront(s.q, s.q[i]),
                m := (s.m - {s.heap[s.q[i]].key})[e.key := s.q[i]])
  }

  lemma {:induction false} FrontEntries(s: Store, i: nat, e: Entry, s': Store)
    requires Fronted(s, i, e, s')
    ensures |s'.q| == |s.q| && forall k: nat | k < |s'.q| :: EntryOk(s', k)
  {
    Moved(s.q, i);
    forall k: nat | k < |s'.q| ensures EntryOk(s', k) {
      assert EntryOk(s, Source(i, k));
      FrontOther(s, i, k);
    }
  }

  lemma {:induction false} FrontKeys(s: Store, i: nat, e: Entry, s': Store, a: nat, b: nat)
    requires Fronted(s, i, e, s') && a < b < |s'.q| == |s.q|
    requires forall k: nat | k < |s'.q| :: EntryOk(s', k)
    ensures OtherKey(s'.q, s'.heap, a, b)
  {
    Moved(s.q, i);
    FrontOther(s, i, a);
    FrontOther(s, i, b);
    assert EntryOk(s', a) && EntryOk(s', b);
    assert EntryOk(s, Source(i, a)) && EntryOk(s, Source(i, b));
    var x, y := Source(i, a), Source(i, b);
    assert x < y ==> OtherKey(s.q, s.heap, x, y);
    assert y < x ==> OtherKey(s.q, s.heap, y, x);
  }

  lemma {:induction false} FrontMap(s: Store, i: nat, e: Entry, s': Store, key: string)
    requires Fronted(s, i, e, s') && key in s'.m
    ensures KeyOk(s', key)
  {
    Moved(s.q, i);
    if key != e.key {
      assert KeyOk(s, key);
      var j :| 0 <= j < |s.q| && s.q[j] == s.m[key];
      var k := if j < i then j + 1 else j;
      assert j != i && Source(i, k) == j && s'.q[k] == s.q[j];
    } else {
      assert s'.q[0] == s.q[i];
    }
  }

  lemma {:induction false} FrontOk(s: Store, i: nat, e: Entry, s': Store)
    requires Fronted(s, i, e, s')
    ensures Inv(s') && Abs(s') == ToFront(Abs(s), i, Origin(e.key, Contents(e.cache)))
  {
    FrontEntries(s, i, e, s');
    forall a: nat, b: nat | a < b < |s'.q| ensures OtherKey(s'.q, s'.heap, a, b) {
      FrontKeys(s, i, e, s', a, b);
    }
    forall key | key in s'.m ensures KeyOk(s', key) {
      FrontMap(s, i, e, s', key);
    }
    FrontAbs(s, i, e, s');
  }

  lemma {:induction false} FrontOther(s: Store, i: nat, k: nat)
    requires i < |s.q| && k < |s.q| && Inv(s) && EntryOk(s, i)
    ensures Source(i, k) < |s.q| && (k > 0 ==> Source(i, k) != i) && s.q[Source(i, k)] in s.heap
    ensures k > 0 ==> s.heap[s.q[Source(i, k)]].key != s.heap[s.q[i]].key
  {
    var x := Source(i, k);
    assert EntryOk(s, x) && EntryOk(s, i);
    assert x < i ==> OtherKey(s.q, s.heap, x, i);
    assert i < x ==> OtherKey(s.q, s.heap, i, x);
  }

  lemma {:induction false} FrontAbs(s: Store, i: nat, e: Entry, s': Store)
    requires Inv(s) && Inv(s') && i < |s.q| && EntryOk(s, i) && |s'.q| == |s.q|
             && (forall j: nat | j < |s.q| && j != i :: s.q[j] != s.q[i])
    requires s'.heap == s.heap[s.q[i] := e] && s'.q == MoveToFront(s.q, s.q[i]) && Valid(e.cache)
    ensures Abs(s') == ToFront(Abs(s), i, Origin(e.key, Contents(e.cache)))
  {
    Moved(s.q, i);
    assert EntryOk(s', 0);
    forall k: nat | 0 < k < |s.q| ensures Abs(s')[k] == Abs(s)[Source(i, k)] {
      FrontOther(s, i, k);
      assert EntryOk(s', k) && EntryOk(s, Source(i, k));
    }
    MovedSeq(Abs(s), Abs(s'), i, Origin(e.key, Contents(e.cache)));
  }

  /** Distinct elements: the one at position i is nowhere else. */
  lemma {:induction false} Alone(s: Store, i: nat)
    requires Inv(s) && i < |s.q|
    ensures EntryOk(s, i) && forall j: nat | j < |s.q| && j != i :: s.q[j] != s.q[i]
  {
    assert EntryOk(s, i);
    forall j: nat | j < |s.q| && j != i ensures s.q[j] != s.q[i] {
      assert EntryOk(s, j);
      assert j < i ==> OtherKey(s.q, s.heap, j, i);
      assert i < j ==> OtherKey(s.q, s.heap, i, j);
    }
  }

  lemma {:induction false} FirstToken(size: nat, t: ClientToken)
    requires size > 0
    ensures var r := Add(NewRing(size), t);
            Valid(r) && |r.tokens| == size && r.len > 0 && Contents(r) == [t]
  {
    NewValid(size);
    AddPushes(NewRing(size), t);
  }

  lemma {:induction false} PutKnown(s: Store, key: string, t: ClientToken)
    requires Inv(s) && Points(s, key) && key in s.m
    ensures Inv(PutToken(s, key, t)) && Abs(PutToken(s, key, t)) == Put(Abs(s), s.capacity, s.size, key, t)
  {
    var i := Agree(s, key);
    var el := s.q[i];
    var e := Entry(key, Add(s.heap[el].cache, t));
    AddPushes(s.heap[el].cache, t);
    assert (s.m - {key})[key := el] == s.m;
    FrontOk(s, i, e, PutToken(s, key, t));
  }

  lemma {:induction false} PutEvicting(s: Store, key: string, t: ClientToken)
    requires Inv(s) && Points(s, key) && key !in s.m && |s.q| == s.capacity
    ensures Inv(PutToken(s, key, t)) && Abs(PutToken(s, key, t)) == Put(Abs(s), s.capacity, s.size, key, t)
  {
    var i := |s.q| - 1;
    Absent(s, key);
    Alone(s, i);
    FirstToken(s.size, t);
    var e := Entry(key, Add(NewRing(s.size), t));
    FrontOk(s, i, e, PutToken(s, key, t));
    assert Abs(s)[i + 1..] == [];
  }

  lemma {:induction false} PutNew(s: Store, key: string, t: ClientToken)
    requires Inv(s) && Points(s, key) && key !in s.m && |s.q| < s.capacity
    ensures Inv(PutToken(s, key, t)) && Abs(PutToken(s, key, t)) == Put(Abs(s), s.capacity, s.size, key, t)
  {
    var s' := PutToken(s, key, t);
    Absent(s, key);
    FirstToken(s.size, t);
    forall k: nat | k < |s'.q| ensures EntryOk(s', k) {
      assert k > 0 ==> EntryOk(s, k - 1);
    }
    forall a: nat, b: nat | a < b < |s'.q| ensures OtherKey(s'.q, s'.heap, a, b) {
      assert EntryOk(s, b - 1);
      if a > 0 {
        assert EntryOk(s, a - 1) && OtherKey(s.q, s.heap, a - 1, b - 1);
      }
    }
    forall k | k in s'.m ensures KeyOk(s', k) {
      if k != key {
        assert KeyOk(s, k);
        var j :| 0 <= j < |s.q| && s.q[j] == s.m[k];
        assert EntryOk(s, j) && s'.q[j + 1] == s.q[j];
      } else {
        assert s'.q[0] == s.nextElement;
      }
    }
    forall k | 0 <= k < |s'.q| ensures Abs(s')[k] == ([Origin(key, [t])] + Abs(s))[k] {
      assert EntryOk(s', k);
      assert k > 0 ==> EntryOk(s, k - 1);
    }
  }

  lemma {:induction false} PutRefines(s: Store, key: string, t: ClientToken)
    requires Inv(s)
    ensures Points(s, key) && Inv(PutToken(s, key, t))
    ensures Abs(PutToken(s, key, t)) == Put(Abs(s), s.capacity, s.size, key, t)
  {
    InvPoints(s, key);
    if key in s.m {
      PutKnown(s, key, t);
    } else if |s.q| < s.capacity {
      PutNew(s, key, t);
    } else {
      PutEvicting(s, key, t);
    }
  }

  lemma {:induction false} PopMore(s: Store, key: string)
    requires Inv(s) && Points(s, key) && key in s.m && PopToken(s, key).1.q == MoveToFront(s.q, s.m[key])
             && Pop(s.heap[s.m[key]].cache).1.len > 0
    ensures Inv(PopToken(s, key).1)
    ensures PopToken(s, key).0 == Take(Abs(s), key).0 && Abs(PopToken(s, key).1) == Take(Abs(s), key).1
  {
    var i := Agree(s, key);
    var el := s.q[i];
    PopTakes(s.heap[el].cache);
    assert (s.m - {key})[key := el] == s.m;
    FrontOk(s, i, Entry(key, Pop(s.heap[el].cache).1), PopToken(s, key).1);
  }

  lemma {:induction false} FirstIndex(q: seq<nat>, el: nat, rest: seq<nat>)
    requires q == [el] + rest
    ensures RemoveElement(q, el) == rest
  {
    assert IndexOf(q, el) == 0;
    assert q[..0] + q[1..] == rest;
  }

  lemma {:induction false} RemovedSeq(q: seq<nat>, i: nat, el: nat)
    requires i < |q| && IndexOf(q, el) == i
    ensures RemoveElement(MoveToFront(q, el), el) == q[..i] + q[i + 1..]
  {
    var rest := q[..i] + q[i + 1..];
    assert MoveToFront(q, el) == [el] + rest;
    FirstIndex(MoveToFront(q, el), el, rest);
  }

  /** The element that leaves its place at position i. */
  lemma {:induction false} LeftEntry(s: Store, i: nat, s': Store, k: nat)
    requires Inv(s) && i < |s.q| && EntryOk(s, i) && Left(s, i, s') && k < |s'.q|
    ensures var j := if k < i then k else k + 1;
            && j < |s.q| && s'.q[k] == s.q[j] && EntryOk(s, j) && EntryOk(s', k) && s'.heap[s'.q[k]] == s.heap[s.q[j]]
  {
    var j := if k < i then k else k + 1;
    assert EntryOk(s, j);
    assert j < i ==> OtherKey(s.q, s.heap, j, i);
    assert i < j ==> OtherKey(s.q, s.heap, i, j);
  }

  /** s' is s without the element at position i and its key. */
  ghost predicate Left(s: Store, i: nat, s': Store)
    requires i < |s.q| && EntryOk(s, i)
  {
    && s'.q == s.q[..i] + s.q[i + 1..] && s'.m == s.m - {s.heap[s.q[i]].key}
    && s'.capacity == s.capacity && s'.size == s.size && s'.nextElement == s.nextElement
    && (forall x | x in s.heap && x != s.q[i] :: x in s'.heap && s'.heap[x] == s.heap[x])
  }

  lemma {:induction false} PopLeaves(s: Store, key: string, i: nat)
    requires Inv(s) && Points(s, key) && key in s.m && Pop(s.heap[s.m[key]].cache).1.len == 0
    requires i < |s.q| && EntryOk(s, i) && s.q[i] == s.m[key] && s.heap[s.q[i]].key == key
             && IndexOf(s.q, s.m[key]) == i
    ensures Left(s, i, PopToken(s, key).1)
  {
    RemovedSeq(s.q, i, s.m[key]);
  }

  lemma {:induction false} PopLast(s: Store, key: string)
    requires Inv(s) && Points(s, key) && key in s.m && Pop(s.heap[s.m[key]].cache).1.len == 0
    ensures Inv(PopToken(s, key).1)
    ensures PopToken(s, key).0 == Take(Abs(s), key).0 && Abs(PopToken(s, key).1) == Take(Abs(s), key).1
  {
    var i := Agree(s, key);
    var s' := PopToken(s, key).1;
    PopTakes(s.heap[s.q[i]].cache);
    PopLeaves(s, key, i);
    PopLastInv(s, i, s');
    LeftAbs(s, i, s');
  }

  lemma {:induction false} LeftAbs(s: Store, i: nat, s': Store)
    requires Inv(s) && Inv(s') && i < |s.q| && EntryOk(s, i) && Left(s, i, s')
    ensures Abs(s') == Abs(s)[..i] + Abs(s)[i + 1..]
  {
    forall k | 0 <= k < |s'.q| ensures Abs(s')[k] == (Abs(s)[..i] + Abs(s)[i + 1..])[k] {
      LeftEntry(s, i, s', k);
    }
  }

  lemma {:induction false} PopLastInv(s: Store, i: nat, s': Store)
    requires Inv(s) && i < |s.q| && EntryOk(s, i) && Left(s, i, s')
    ensures Inv(s')
  {
    forall k: nat | k < |s'.q| ensures EntryOk(s', k) {
      LeftEntry(s, i, s', k);
    }
    forall a: nat, b: nat | a < b < |s'.q| ensures OtherKey(s'.q, s'.heap, a, b) {
      LeftEntry(s, i, s', a);
      LeftEntry(s, i, s', b);
      var x, y := if a < i then a else a + 1, if b < i then b else b + 1;
      assert OtherKey(s.q, s.heap, x, y);
    }
    forall key | key in s'.m ensures KeyOk(s', key) {
      assert KeyOk(s, key);
      var j :| 0 <= j < |s.q| && s.q[j] == s.m[key];
      var k := if j < i then j else j - 1;
      assert j != i;
      LeftEntry(s, i, s', k);
    }
  }

  lemma {:induction false} PopRefines(s: Store, key: string)
    requires Inv(s)
    ensures Points(s, key) && Inv(PopToken(s, key).1)
    ensures PopToken(s, key).0 == Take(Abs(s), key).0 && Abs(PopToken(s, key).1) == Take(Abs(s), key).1
  {
    InvPoints(s, key);
    if key !in s.m {
      Absent(s, key);
    } else if Pop(s.heap[s.m[key]].cache).1.len > 0 {
      PopMore(s, key);
    } else {
      PopLast(s, key);
    }
  }

  datatype Op = PutOp(key: string, token: ClientToken) | PopOp(key: string)

  /** The store after a run, and what each Pop returned. */
  datatype World = World(s: Store, popped: seq<Option<ClientToken>>)

  datatype Reference = Reference(s: seq<Origin>, popped: seq<Option<ClientToken>>)

  ghost function Run(capacity: nat, size: nat, ops: seq<Op>): (w: World)
    requires capacity > 0 && size > 0
    ensures Inv(w.s) && w.s.capacity == capacity && w.s.size == size
  {
    if |ops| == 0 then World(NewStore(capacity, size), [])
    else
      var w := Run(capacity, size, ops[..|ops| - 1]);
      match ops[|ops| - 1]
      case PutOp(key, t) =>
        PutRefines(w.s, key, t);
        w.(s := PutToken(w.s, key, t))
      case PopOp(key) =>
        PopRefines(w.s, key);
        World(PopToken(w.s, key).1, w.popped + [PopToken(w.s, key).0])
  }

  function ReferenceRun(capacity: nat, size: nat, ops: seq<Op>): Reference
    requires capacity > 0
  {
    if |ops| == 0 then Reference([], [])
    else
      var r := ReferenceRun(capacity, size, ops[..|ops| - 1]);
      match ops[|ops| - 1]
      case PutOp(key, t) => r.(s := Put(r.s, capacity, size, key, t))
      case PopOp(key) => Reference(Take(r.s, key).1, r.popped + [Take(r.s, key).0])
  }

  /** In every run the store behaves like the list of origins, most recently used first. */
  lemma {:induction false} RunRefines(capacity: nat, size: nat, ops: seq<Op>)
    requires capacity > 0 && size > 0
    ensures Reference(Abs(Run(capacity, size, ops).s), Run(capacity, size, ops).popped)
            == ReferenceRun(capacity, size, ops)
  {
    if |ops| == 0 {
      assert Abs(NewStore(capacity, size)) == [];
    } else {
      var before := ops[..|ops| - 1];
      RunRefines(capacity, size, before);
      var w := Run(capacity, size, before);
      match ops[|ops| - 1]
      case PutOp(key, t) => PutRefines(w.s, key, t);
      case PopOp(key) => PopRefines(w.s, key);
    }
  }

  ghost predicate Differ(s: seq<Origin>, i: nat, j: nat)
    requires i < j < |s|
  {
    s[i].key != s[j].key
  }

  /** The list has at most `capacity` different origins, each with one to `size` tokens. */
  lemma {:induction false} ReferenceBounded(capacity: nat, size: nat, ops: seq<Op>)
    requires capacity > 0 && size > 0
    ensures var s := ReferenceRun(capacity, size, ops).s;
            && |s| <= capacity
            && (forall i | 0 <= i < |s| :: 0 < |s[i].tokens| <= size)
            && (forall i: nat, j: nat | i < j < |s| :: Differ(s, i, j))
  {
    RunRefines(capacity, size, ops);
    var w := Run(capacity, size, ops).s;
    var s := Abs(w);
    forall i | 0 <= i < |s| ensures 0 < |s[i].tokens| <= size {
      assert EntryOk(w, i);
    }
    forall i: nat, j: nat | i < j < |s| ensures Differ(s, i, j) {
      assert EntryOk(w, i) && EntryOk(w, j) && OtherKey(w.q, w.heap, i, j);
    }
  }

  class LruTokenStore {
    var m: map<string, nat>
    var q: seq<nat>
    var heap: map<nat, Entry>
    var nextElement: nat
    const capacity: nat
    const singleOriginSize: nat

    ghost function State(): Store
      reads this
    {
      Store(m, q, heap, capacity, singleOriginSize, nextElement)
    }

    constructor (maxOrigins: nat, tokensPerOrigin: nat)
      ensures State() == NewStore(maxOrigins, tokensPerOrigin)
    {
      m, q, heap, nextElement := map[], [], map[], 0;
      capacity, singleOriginSize := maxOrigins, tokensPerOrigin;
    }

    method Insert(key: string, t: ClientToken)
      requires Points(State(), key)
      modifies this
      ensures State() == PutToken(old(State()), key, t)
    {
      if key in m {
        var el := m[key];
        heap := heap[el := Entry(heap[el].key, Add(heap[el].cache, t))];
        q := MoveToFront(q, el);
        return;
      }
      if |q| < capacity {
        var el := nextElement;
        nextElement := nextElement + 1;
        heap := heap[el := Entry(key, Add(NewRing(singleOriginSize), t))];
        q := [el] + q;
        m := m[key := el];
        return;
      }
      var elem := q[|q| - 1];
      m := m - {heap[elem].key};
      heap := heap[elem := Entry(key, Add(NewRing(singleOriginSize), t))];
      q := MoveToFront(q, elem);
      m := m[key := elem];
    }

    method Extract(key: string) returns (t: Option<ClientToken>)
      requires Points(State(), key)
      modifies this
      ensures (t, State()) == PopToken(old(State()), key)
    {
      t := None;
      if key in m {
        var el := m[key];
        q := MoveToFront(q, el);
        var r := Pop(heap[el].cache);
        t := r.0;
        heap := heap[el := heap[el].(cache := r.1)];
        if r.1.len == 0 {
          q := RemoveElement(q, el);
          m := m - {key};
        }
      }
    }
  }
}
