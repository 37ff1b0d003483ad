/** Gap lists: the byte ranges of a stream that have not been received yet. */
module Gaps {
  import opened Protocol

  datatype Interval = Interval(start: nat, end: nat)

  ghost predicate Before(gaps: seq<Interval>, i: nat, j: nat)
    requires i < j < |gaps|
  {
    gaps[i].end < gaps[j].start
  }

  ghost predicate Separated(gaps: seq<Interval>) {
    && (forall i | 0 <= i < |gaps| :: gaps[i].start < gaps[i].end)
    && (forall i: nat, j: nat | i < j < |gaps| :: Before(gaps, i, j))
  }

  /** Sorted, non-empty, strictly separated, and open-ended up to the largest offset. */
  ghost predicate WellFormed(gaps: seq<Interval>) {
    && Separated(gaps)
    && |gaps| > 0
    && gaps[|gaps| - 1].end == MAX_BYTE_COUNT
  }

  ghost predicate Missing(gaps: seq<Interval>, x: int) {
    exists i | 0 <= i < |gaps| :: gaps[i].start <= x < gaps[i].end
  }

  lemma {:induction false} EndBounded(gaps: seq<Interval>, i: nat)
    requires WellFormed(gaps) && i < |gaps|
    ensures gaps[i].start < gaps[i].end <= MAX_BYTE_COUNT
    ensures i + 1 < |gaps| ==> gaps[i].end < gaps[i + 1].start < MAX_BYTE_COUNT
  {
    assert i + 1 < |gaps| ==> Before(gaps, i, i + 1);
    assert i < |gaps| - 1 ==> Before(gaps, i, |gaps| - 1);
    assert i + 1 < |gaps| - 1 ==> Before(gaps, i + 1, |gaps| - 1);
  }

  lemma {:induction false} SeparatedSlice(gaps: seq<Interval>, i: nat, j: nat)
    requires Separated(gaps) && i <= j <= |gaps|
    ensures Separated(gaps[i..j])
  {
    var part := gaps[i..j];
    forall k: nat, m: nat | k < m < |part| ensures Before(part, k, m) {
      assert Before(gaps, i + k, i + m);
    }
  }

  lemma {:induction false} SeparatedConcat(a: seq<Interval>, b: seq<Interval>, cut: nat)
    requires Separated(a) && Separated(b)
    requires forall i | 0 <= i < |a| :: a[i].end < cut
    requires forall i | 0 <= i < |b| :: cut <= b[i].start
    ensures Separated(a + b)
  {
    forall i: nat, j: nat | i < j < |a + b| ensures Before(a + b, i, j) {
      if j < |a| {
        assert Before(a, i, j);
      } else if i >= |a| {
        assert Before(b, i - |a|, j - |a|);
      }
    }
  }

  lemma {:induction false} MissingConcat(a: seq<Interval>, b: seq<Interval>, x: int)
    ensures Missing(a + b, x) <==> Missing(a, x) || Missing(b, x)
  {
    if Missing(a, x) {
      var i :| 0 <= i < |a| && a[i].start <= x < a[i].end;
      assert (a + b)[i] == a[i];
    }
    if Missing(b, x) {
      var i :| 0 <= i < |b| && b[i].start <= x < b[i].end;
      assert (a + b)[|a| + i] == b[i];
    }
  }

  lemma {:induction false} MissingConcat3(a: seq<Interval>, b: seq<Interval>, c: seq<Interval>, x: int)
    ensures Missing(a + b + c, x) <==> Missing(a, x) || Missing(b, x) || Missing(c, x)
  {
    MissingConcat(a + b, c, x);
    MissingConcat(a, b, x);
  }
}
