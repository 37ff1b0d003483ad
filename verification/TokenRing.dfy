/** The newest tokens of one origin in a ring buffer (singleOriginTokenStore in quic-go/token_store.go). */
module TokenRing {
  import opened Protocol
  import Modulo

  datatype ClientToken = ClientToken(data: Bytes)

  datatype Ring = Ring(tokens: seq<Option<ClientToken>>, len: nat, p: nat)

  function NewRing(size: nat): Ring {
    Ring(seq(size, i => None), 0, 0)
  }

  /** The index after p, and the one before it, around the end of the buffer. */
  function After(p: nat, size: nat): nat {
    if p + 1 >= size then 0 else p + 1
  }

  function Before(p: nat, size: nat): nat
    requires size > 0
  {
    if p == 0 then size - 1 else p - 1
  }

  function Add(r: Ring, t: ClientToken): Ring
    requires r.p < |r.tokens|
  {
    Ring(r.tokens[r.p := Some(t)], Min(r.len + 1, |r.tokens|), After(r.p, |r.tokens|))
  }

  function Pop(r: Ring): (Option<ClientToken>, Ring)
    requires r.p < |r.tokens|
  {
    var p := Before(r.p, |r.tokens|);
    (r.tokens[p], Ring(r.tokens[p := None], Max(r.len - 1, 0), p))
  }

  /** Where the k-th newest token is. */
  function At(p: nat, size: nat, k: nat): nat
    requires p < size && k < size
  {
    if k < p then p - 1 - k else size + p - 1 - k
  }

  /** The len slots before p hold tokens, all others are empty. */
  ghost predicate Valid(r: Ring) {
    && r.p < |r.tokens| && r.len <= |r.tokens|
    && (forall k: nat | k < |r.tokens| :: SlotOk(r, k))
  }

  ghost predicate SlotOk(r: Ring, k: nat)
    requires r.p < |r.tokens| && k < |r.tokens|
  {
    r.tokens[At(r.p, |r.tokens|, k)].Some? <==> k < r.len
  }

  /** The stored tokens, newest first. */
  ghost function Contents(r: Ring): (s: seq<ClientToken>)
    requires Valid(r)
    ensures |s| == r.len
  {
    seq(r.len, k requires 0 <= k < r.len => (assert SlotOk(r, k); r.tokens[At(r.p, |r.tokens|, k)].value))
  }

  function Newest(s: seq<ClientToken>, size: nat): seq<ClientToken> {
    if |s| > size then s[..size] else s
  }

  lemma {:induction false} NewValid(size: nat)
    requires size > 0
    ensures Valid(NewRing(size)) && Contents(NewRing(size)) == []
  {
    var r := NewRing(size);
    forall k: nat | k < size ensures SlotOk(r, k) {
      assert r.tokens[At(r.p, size, k)] == None;
    }
  }

  lemma {:induction false} AddSlot(r: Ring, t: ClientToken, k: nat)
    requires Valid(r) && k < |r.tokens|
    ensures var r' := Add(r, t);
            && r'.p < |r'.tokens|
            && r'.tokens[At(r'.p, |r'.tokens|, k)] == if k == 0 then Some(t) else r.tokens[At(r.p, |r.tokens|, k - 1)]
  {
  }

  lemma {:induction false} AddValid(r: Ring, t: ClientToken)
    requires Valid(r)
    ensures Valid(Add(r, t))
  {
    var r' := Add(r, t);
    forall k: nat | k < |r'.tokens| ensures SlotOk(r', k) {
      AddSlot(r, t, k);
      assert k > 0 ==> SlotOk(r, k - 1);
    }
  }

  lemma {:induction false} AddContent(r: Ring, t: ClientToken, k: nat)
    requires Valid(r) && Valid(Add(r, t)) && k < Add(r, t).len
    ensures k <= r.len && Contents(Add(r, t))[k] == if k == 0 then t else Contents(r)[k - 1]
  {
    AddSlot(r, t, k);
    assert SlotOk(Add(r, t), k);
    assert k > 0 ==> SlotOk(r, k - 1);
  }

  lemma {:induction false} NewestIs(t: ClientToken, old': seq<ClientToken>, new': seq<ClientToken>, size: nat)
    requires |old'| <= size && |new'| == Min(|old'| + 1, size) && size > 0
    requires forall k | 0 <= k < |new'| :: new'[k] == if k == 0 then t else old'[k - 1]
    ensures new' == Newest([t] + old', size)
  {
  }

  /** Adding pushes on the stack; the oldest token falls off a full one. */
  lemma {:induction false} AddPushes(r: Ring, t: ClientToken)
    requires Valid(r)
    ensures Valid(Add(r, t)) && Contents(Add(r, t)) == Newest([t] + Contents(r), |r.tokens|)
  {
    AddValid(r, t);
    var c, c' := Contents(r), Contents(Add(r, t));
    forall k | 0 <= k < |c'| ensures c'[k] == if k == 0 then t else c[k - 1] {
      AddContent(r, t, k);
    }
    NewestIs(t, c, c', |r.tokens|);
  }

  lemma {:induction false} PopSlot(r: Ring, k: nat)
    requires Valid(r) && k < |r.tokens|
    ensures var r' := Pop(r).1;
            && r'.p < |r'.tokens|
            && r'.tokens[At(r'.p, |r'.tokens|, k)]
              == if k + 1 < |r.tokens| then r.tokens[At(r.p, |r.tokens|, k + 1)] else None
  {
  }

  /** Popping takes the newest token off the stack; an empty ring yields none. */
  lemma {:induction false} PopTakes(r: Ring)
    requires Valid(r)
    ensures Valid(Pop(r).1)
    ensures r.len == 0 ==> Pop(r).0 == None && Contents(Pop(r).1) == []
    ensures r.len > 0 ==> Pop(r).0 == Some(Contents(r)[0]) && Contents(Pop(r).1) == Contents(r)[1..]
  {
    var r' := Pop(r).1;
    assert SlotOk(r, 0);
    forall k: nat | k < |r'.tokens| ensures SlotOk(r', k) {
      PopSlot(r, k);
      assert k + 1 < |r.tokens| ==> SlotOk(r, k + 1);
    }
    forall k | 0 <= k < r'.len ensures Contents(r')[k] == Contents(r)[k + 1] {
      PopSlot(r, k);
      assert SlotOk(r', k) && SlotOk(r, k + 1);
    }
  }

  lemma {:induction false} Wraps(i: int, size: nat)
    requires size > 0 && -1 <= i <= size
    ensures (i + size) % size == if i == size then 0 else if i == -1 then size - 1 else i
  {
    if i == size {
      Modulo.Multiple(2, size, 0);
    } else if i >= 0 {
      Modulo.Multiple(1, size, i);
    }
  }

  class SingleOriginTokenStore {
    const tokens: array<Option<ClientToken>>
    var len: nat
    var p: nat

    ghost function State(): Ring
      reads this, tokens
    {
      Ring(tokens[..], len, p)
    }

    constructor (size: nat)
      ensures fresh(tokens) && State() == NewRing(size)
    {
      tokens := new Option<ClientToken>[size](i => None);
      len, p := 0, 0;
    }

    function Index(i: int): int
      requires tokens.Length > 0
    {
      (i + tokens.Length) % tokens.Length
    }

    method AddToken(t: ClientToken)
      requires p < tokens.Length
      modifies this, tokens
      ensures State() == Add(old(State()), t)
    {
      tokens[p] := Some(t);
      Wraps(p + 1, tokens.Length);
      p := Index(p + 1);
      len := Min(len + 1, tokens.Length);
    }

    method PopToken() returns (t: Option<ClientToken>)
      requires p < tokens.Length
      modifies this, tokens
      ensures (t, State()) == Pop(old(State()))
    {
      Wraps(p - 1, tokens.Length);
      p := Index(p - 1);
      t := tokens[p];
      tokens[p] := None;
      len := Max(len - 1, 0);
    }
  }
}
