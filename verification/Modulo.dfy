/** Remainders of multiples. */
module Modulo {
  lemma {:induction false} Scaled(delta: nat, q: int)
    requires delta > 0
    ensures q >= 1 ==> delta * q >= delta
    ensures q <= 0 ==> delta * q <= 0
    ensures q <= -1 ==> delta * q <= 0 - delta
  {
  }

  lemma {:induction false} Multiple(q: int, delta: nat, r: int)
    requires 0 <= r < delta
    ensures (delta * q + r) % delta == r
  {
    var x := delta * q + r;
    var k := x / delta - q;
    assert delta * k == r - x % delta;
    Scaled(delta, k);
  }

  lemma {:induction false} Small(r: int, delta: nat)
    requires 0 <= r < delta
    ensures r % delta == r
  {
  }
}
