/** Which claims about the size of a stream contradict each other (section 4.5 of RFC 9000). */
module FinalSizeRuns {
  import opened Protocol
  import opened FinalSize

  /** The end of a frame, and whether it is claimed to be the end of the stream. */
  datatype Claim = Claim(end: nat, final: bool)

  /** What is known after these claims, None from the first one on that is refused. */
  function After(claims: seq<Claim>): Option<Highest> {
    var n := |claims| - 1;
    if n < 0 then Some(Highest(0, false))
    else
      var h := After(claims[..n]);
      if h.None? then None
      else
        var (v, h') := Update(h.value, claims[n].end, claims[n].final);
        if v.FinalSizeError? then None else Some(h')
  }

  /** Nothing lies beyond a final end. */
  ghost predicate Fits(claims: seq<Claim>, i: nat, j: nat)
    requires i < |claims| && j < |claims|
  {
    claims[i].final ==> claims[j].end <= claims[i].end
  }

  /** No two claims contradict each other; in particular all final ends are equal. */
  ghost predicate Consistent(claims: seq<Claim>) {
    forall i: nat, j: nat | i < |claims| && j < |claims| :: Fits(claims, i, j)
  }

  /** The state says exactly what was claimed. */
  ghost predicate Knows(claims: seq<Claim>, h: Highest) {
    && (forall i: nat | i < |claims| :: claims[i].end <= h.received)
    && (h.received == 0 || exists i: nat | i < |claims| :: claims[i].end == h.received)
    && (h.final <==> exists i: nat | i < |claims| :: claims[i].final)
    && (h.final ==> exists i: nat | i < |claims| :: claims[i].final && claims[i].end == h.received)
  }

  lemma {:induction false} KnowsSnoc(claims: seq<Claim>, n: nat, h: Highest, h': Highest)
    requires |claims| == n + 1 && Knows(claims[..n], h) && (h.final ==> claims[n].end <= h.received)
    requires claims[n].final ==> h.received <= claims[n].end
    requires h' == Highest(Max(h.received, claims[n].end), h.final || claims[n].final)
    ensures Knows(claims, h')
  {
    assert forall i | 0 <= i < n :: claims[i] == claims[..n][i];
    if h.final {
      var i: nat :| i < n && claims[..n][i].final && claims[..n][i].end == h.received;
      assert claims[i].final && claims[i].end == h'.received;
    }
    if h'.received == h.received && h.received != 0 {
      var i: nat :| i < n && claims[..n][i].end == h.received;
      assert claims[i].end == h'.received;
    }
  }

  lemma {:induction false} ConsistentSnoc(claims: seq<Claim>, n: nat, h: Highest)
    requires |claims| == n + 1 && Knows(claims[..n], h)
    ensures Consistent(claims) <==>
              && Consistent(claims[..n]) && (h.final ==> claims[n].end <= h.received)
              && (claims[n].final ==> h.received <= claims[n].end)
  {
    var init := claims[..n];
    if Consistent(claims) {
      forall i: nat, j: nat | i < n && j < n ensures Fits(init, i, j) {
        assert Fits(claims, i, j);
      }
      if h.final {
        var i: nat :| i < n && init[i].final && init[i].end == h.received;
        assert Fits(claims, i, n);
      }
      if claims[n].final && h.received > 0 {
        var i: nat :| i < n && init[i].end == h.received;
        assert Fits(claims, n, i);
      }
    } else {
      var i: nat, j: nat :| i < |claims| && j < |claims| && !Fits(claims, i, j);
      NotFitting(claims, n, h, i, j);
    }
  }

  lemma {:induction false} NotFitting(claims: seq<Claim>, n: nat, h: Highest, i: nat, j: nat)
    requires |claims| == n + 1 && Knows(claims[..n], h) && i <= n && j <= n && !Fits(claims, i, j)
    ensures !(&& Consistent(claims[..n]) && (h.final ==> claims[n].end <= h.received)
              && (claims[n].final ==> h.received <= claims[n].end))
  {
    var init := claims[..n];
    if i < n && j < n {
      assert !Fits(init, i, j);
    } else if i < n {
      assert init[i].final && init[i].end <= h.received;
      if Consistent(init) {
        var k: nat :| k < n && init[k].final && init[k].end == h.received;
        assert Fits(init, i, k);
      }
    } else {
      assert init[j].end <= h.received;
    }
  }

  /**
   * The claims are all accepted if and only if no two of them contradict each other, in whatever order they
   * come; what is known then is their largest end and whether it is final.
   */
  lemma {:induction false} AcceptedExact(claims: seq<Claim>)
    ensures After(claims).Some? <==> Consistent(claims)
    ensures After(claims).Some? ==> Knows(claims, After(claims).value)
  {
    var n := |claims| - 1;
    if n >= 0 {
      AcceptedExact(claims[..n]);
      if After(claims[..n]).Some? {
        var h := After(claims[..n]).value;
        ConsistentSnoc(claims, n, h);
        if Consistent(claims) {
          KnowsSnoc(claims, n, h, After(claims).value);
        }
      } else {
        var i: nat, j: nat :| i < n && j < n && !Fits(claims[..n], i, j);
        assert !Fits(claims, i, j);
      }
    }
  }
}
