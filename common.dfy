/** Shared value types and sequence arithmetic used by the pipeline model. */
module Common {

  /** An optional value. In the indicator model `None` stands for the NaN
      that pandas produces where a value is undefined. */
  datatype Option<+T> = None | Some(value: T)

  function Last(s: seq<real>): real
    requires |s| > 0
  {
    s[|s| - 1]
  }

  /** The sum of a sequence, peeled from its last element. */
  function Sum(s: seq<real>): real
  {
    if |s| == 0 then 0.0 else Sum(s[..|s| - 1]) + s[|s| - 1]
  }

  /** The arithmetic mean, as pandas `mean()` computes it over a full window. */
  function Mean(s: seq<real>): real
    requires |s| > 0
  {
    Sum(s) / (|s| as real)
  }

  /** The last `k` elements of `s`, in their original order. */
  function Suffix<T>(s: seq<T>, k: nat): (r: seq<T>)
    requires k <= |s|
    ensures |r| == k
    ensures forall i :: 0 <= i < k ==> r[i] == s[|s| - k + i]
  {
    s[|s| - k..]
  }

  function Min(a: nat, b: nat): nat
  {
    if a <= b then a else b
  }

  ghost predicate Within(s: seq<real>, lo: real, hi: real)
  {
    forall i :: 0 <= i < |s| ==> lo <= s[i] <= hi
  }

  /** The sum of `n` copies of `x`. */
  function Times(n: nat, x: real): real
  {
    if n == 0 then 0.0 else Times(n - 1, x) + x
  }

  lemma {:induction false} TimesIsProduct(n: nat, x: real)
    ensures Times(n, x) == x * (n as real)
  {
    if n > 0 {
      TimesIsProduct(n - 1, x);
      OneMore((n - 1) as real, x);
    }
  }

  lemma OneMore(n: real, x: real)
    ensures x * (n + 1.0) == x * n + x
  {
  }

  /** Every element lies in [lo, hi], so the sum lies between n copies of lo and n copies of hi. */
  lemma {:induction false} SumBounds(s: seq<real>, lo: real, hi: real)
    requires Within(s, lo, hi)
    ensures Times(|s|, lo) <= Sum(s) <= Times(|s|, hi)
  {
    if |s| > 0 {
      var p := s[..|s| - 1];
      assert Within(p, lo, hi) by {
        forall i | 0 <= i < |p| ensures lo <= p[i] <= hi {
          assert p[i] == s[i];
        }
      }
      SumBounds(p, lo, hi);
      assert lo <= s[|s| - 1] <= hi;
    }
  }

  lemma {:induction false} NonNegativeSum(s: seq<real>)
    requires forall i :: 0 <= i < |s| ==> 0.0 <= s[i]
    ensures 0.0 <= Sum(s)
  {
    if |s| > 0 {
      var p := s[..|s| - 1];
      forall i | 0 <= i < |p| ensures 0.0 <= p[i] {
        assert p[i] == s[i];
      }
      NonNegativeSum(p);
    }
  }

  /** A sum of non-negative elements is at least any one of them. */
  lemma {:induction false} SumAtLeastElement(s: seq<real>, k: nat)
    requires k < |s|
    requires forall i :: 0 <= i < |s| ==> 0.0 <= s[i]
    ensures s[k] <= Sum(s)
  {
    var p := s[..|s| - 1];
    forall i | 0 <= i < |p| ensures 0.0 <= p[i] {
      assert p[i] == s[i];
    }
    NonNegativeSum(p);
    if k < |s| - 1 {
      assert p[k] == s[k];
      SumAtLeastElement(p, k);
    }
  }

  /** A mean of values in [lo, hi] lies in [lo, hi]. */
  lemma MeanBounds(s: seq<real>, lo: real, hi: real)
    requires |s| > 0 && Within(s, lo, hi)
    ensures lo <= Mean(s) <= hi
  {
    SumBounds(s, lo, hi);
    TimesIsProduct(|s|, lo);
    TimesIsProduct(|s|, hi);
    DivideBounds(Sum(s), |s| as real, lo, hi);
  }

  lemma MulMonotone(b: real, x: real, y: real)
    requires 0.0 <= b && x <= y
    ensures b * x <= b * y
  {
  }

  lemma AddMonotone(a: real, b: real, c: real, d: real)
    requires a <= b && c <= d
    ensures a + c <= b + d
  {
  }

  lemma Distribute(a: real, b: real, t: real)
    ensures a * (1.0 + b * t) == a + b * (a * t)
  {
  }

  /** From lo*n <= x <= hi*n and n > 0 follows lo <= x/n <= hi. */
  lemma DivideBounds(x: real, n: real, lo: real, hi: real)
    requires n > 0.0 && lo * n <= x <= hi * n
    ensures lo <= x / n <= hi
  {
    assert x == n * (x / n);
  }
}
