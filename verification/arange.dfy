/** NumPy's `arange(start, stop, step)` over exact reals: the half-open
    arithmetic progression start, start + step, start + 2*step, ... that
    stops before it leaves the interval between start and stop. */
module NumPyRange {

  /** The least integer that is not below `x`. */
  function Ceil(x: real): (n: int)
    ensures n as real - 1.0 < x <= n as real
  {
    -((-x).Floor)
  }

  /** `x` lies in the half-open interval that `arange` walks: [start, stop)
      for a positive step, (stop, start] for a negative one. */
  predicate InRange(x: real, start: real, stop: real, step: real)
  {
    if step > 0.0 then start <= x < stop else stop < x <= start
  }

  /** NumPy's length rule: ceil((stop - start) / step), clipped at zero. */
  function Length(start: real, stop: real, step: real): nat
    requires step != 0.0
  {
    var q := (stop - start) / step;
    if q <= 0.0 then 0 else Ceil(q)
  }

  /** Term k of the progression. */
  function Term(start: real, step: real, k: nat): real
  {
    start + k as real * step
  }

  /** Every term before position Length(...) is in range ... */
  lemma TermInRange(start: real, stop: real, step: real, k: nat)
    requires step != 0.0
    requires k < Length(start, stop, step)
    ensures InRange(start + k as real * step, start, stop, step)
  {
    var q := (stop - start) / step;
    assert q * step == stop - start;
    assert 0.0 <= k as real < q;
    if step > 0.0 {
      assert 0.0 <= k as real * step < q * step;
    } else {
      assert q * step < k as real * step <= 0.0;
    }
  }

  /** TermInRange for every position at once. */
  lemma TermsInRange(start: real, stop: real, step: real)
    requires step != 0.0
    ensures forall k: nat :: k < Length(start, stop, step) ==> InRange(Term(start, step, k), start, stop, step)
  {
    forall k: nat | k < Length(start, stop, step)
      ensures InRange(Term(start, step, k), start, stop, step)
    {
      TermInRange(start, stop, step, k);
    }
  }

  /** ... and the term at position Length(...) is not. */
  lemma PastEndOutOfRange(start: real, stop: real, step: real)
    requires step != 0.0
    ensures !InRange(start + Length(start, stop, step) as real * step, start, stop, step)
  {
    var q := (stop - start) / step;
    var n := Length(start, stop, step) as real;
    assert q * step == stop - start;
    if q > 0.0 {
      assert q <= n;
      if step > 0.0 {
        assert q * step <= n * step;
      } else {
        assert n * step <= q * step;
      }
    }
  }

  /** A term is in range exactly when its position is below Length(...). */
  lemma InRangeIffBeforeEnd(start: real, stop: real, step: real, m: nat)
    requires step != 0.0
    ensures InRange(start + m as real * step, start, stop, step) <==> m < Length(start, stop, step)
  {
    var n := Length(start, stop, step);
    if m < n {
      TermInRange(start, stop, step, m);
    } else {
      PastEndOutOfRange(start, stop, step);
      if step > 0.0 {
        assert n as real * step <= m as real * step;
      } else {
        assert m as real * step <= n as real * step;
      }
    }
  }

  /** `np.arange(start, stop, step)`: term k is start + k*step, every term
      is in the half-open range, and the progression is as long as possible
      (its next term would leave the range). */
  function Arange(start: real, stop: real, step: real): (r: seq<real>)
    requires step != 0.0
    ensures forall k :: 0 <= k < |r| ==> r[k] == start + k as real * step
    ensures forall k :: 0 <= k < |r| ==> InRange(r[k], start, stop, step)
    ensures !InRange(start + |r| as real * step, start, stop, step)
  {
    TermsInRange(start, stop, step);
    PastEndOutOfRange(start, stop, step);
    seq(Length(start, stop, step), k requires 0 <= k => Term(start, step, k))
  }

  /** The three properties in Arange's contract determine the sequence:
      any progression from `start` by `step` that stays in range and cannot
      be extended is Arange(start, stop, step). */
  lemma ArangeUnique(start: real, stop: real, step: real, s: seq<real>)
    requires step != 0.0
    requires forall k :: 0 <= k < |s| ==> s[k] == start + k as real * step
    requires forall k :: 0 <= k < |s| ==> InRange(s[k], start, stop, step)
    requires !InRange(start + |s| as real * step, start, stop, step)
    ensures s == Arange(start, stop, step)
  {
    var r := Arange(start, stop, step);
    assert |r| == Length(start, stop, step);
    if |s| > 0 {
      assert s[|s| - 1] == start + (|s| - 1) as real * step;
    }
    MaximalLength(start, stop, step, |s|);
    assert forall k :: 0 <= k < |s| ==> s[k] == r[k];
  }

  /** Length(...) is the only length a progression from `start` can have if
      its terms stay in range and its next term does not. */
  lemma MaximalLength(start: real, stop: real, step: real, n: nat)
    requires step != 0.0
    requires n > 0 ==> InRange(start + (n - 1) as real * step, start, stop, step)
    requires !InRange(start + n as real * step, start, stop, step)
    ensures n == Length(start, stop, step)
  {
    InRangeIffBeforeEnd(start, stop, step, n);
    if n > 0 {
      InRangeIffBeforeEnd(start, stop, step, n - 1);
    }
  }

  /** The progression is empty exactly when `start` itself is out of range:
      for a positive step, exactly when start >= stop. */
  lemma ArangeEmpty(start: real, stop: real, step: real)
    requires step != 0.0
    ensures Arange(start, stop, step) == [] <==> !InRange(start, start, stop, step)
    ensures step > 0.0 ==> (Arange(start, stop, step) == [] <==> start >= stop)
  {
    var r := Arange(start, stop, step);
    if r != [] {
      assert r[0] == start;
    } else {
      assert start + |r| as real * step == start;
    }
  }

  /** Terms are strictly increasing for a positive step and strictly
      decreasing for a negative one. */
  lemma ArangeMonotone(start: real, stop: real, step: real, i: nat, j: nat)
    requires step != 0.0
    requires i < j < |Arange(start, stop, step)|
    ensures step > 0.0 ==> Arange(start, stop, step)[i] < Arange(start, stop, step)[j]
    ensures step < 0.0 ==> Arange(start, stop, step)[i] > Arange(start, stop, step)[j]
  {
    var r := Arange(start, stop, step);
    assert r[j] - r[i] == (j - i) as real * step;
    if step > 0.0 {
      assert (j - i) as real * step > 0.0;
    } else {
      assert (j - i) as real * step < 0.0;
    }
  }
}
