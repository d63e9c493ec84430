/** The arithmetic the core borrows from numpy, over exact reals. */
module Numeric {

  function Sum(s: seq<real>): real
  {
    if |s| == 0 then 0.0 else s[0] + Sum(s[1..])
  }

  /** `np.mean` of a non-empty one-dimensional array. */
  function Mean(s: seq<real>): (m: real)
    requires |s| > 0
    ensures m * |s| as real == Sum(s)
  {
    Sum(s) / |s| as real
  }

  /** Python's `min([a, b])`. */
  function Min(a: real, b: real): (r: real)
    ensures r <= a && r <= b
    ensures r == a || r == b
  {
    if b < a then b else a
  }

  predicate AllWithin(s: seq<real>, lo: real, hi: real)
  {
    forall k :: 0 <= k < |s| ==> lo <= s[k] <= hi
  }

  /** A sum of `|s|` terms each within `[lo, hi]` lies within `[|s|·lo, |s|·hi]`. */
  lemma {:induction false} SumWithin(s: seq<real>, lo: real, hi: real)
    requires AllWithin(s, lo, hi)
    ensures |s| as real * lo <= Sum(s) <= |s| as real * hi
  {
    if |s| > 0 {
      assert AllWithin(s[1..], lo, hi) by {
        forall k | 0 <= k < |s[1..]| ensures lo <= s[1..][k] <= hi {
          assert s[1..][k] == s[k + 1];
        }
      }
      SumWithin(s[1..], lo, hi);
    }
  }

  /** The mean of values within `[lo, hi]` is within `[lo, hi]`. */
  lemma MeanWithin(s: seq<real>, lo: real, hi: real)
    requires |s| > 0
    requires AllWithin(s, lo, hi)
    ensures lo <= Mean(s) <= hi
  {
    SumWithin(s, lo, hi);
  }

  /** The sum of `n` copies of `c` is `n·c`. */
  lemma {:induction false} SumConstant(n: nat, c: real)
    ensures Sum(seq(n, _ => c)) == n as real * c
  {
    if n > 0 {
      assert seq(n, _ => c)[1..] == seq(n - 1, _ => c);
      SumConstant(n - 1, c);
    }
  }

  /** `np.mean(np.full((n,), c)) == c` for `n > 0`. */
  lemma MeanConstant(n: nat, c: real)
    requires n > 0
    ensures Mean(seq(n, _ => c)) == c
  {
    SumConstant(n, c);
  }
}
