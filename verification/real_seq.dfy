/** Sums over sequences of reals, the model of `np.sum`. */
module RealSeq {

  /** The sum of the first n elements of s. */
  function PrefixSum(s: seq<real>, n: nat): real
    requires n <= |s|
  {
    if n == 0 then 0.0 else PrefixSum(s, n - 1) + s[n - 1]
  }

  /** The sum of all elements. The recursion lives in `PrefixSum`, so that a
      total is one term wherever it occurs. */
  function Sum(s: seq<real>): real
  {
    PrefixSum(s, |s|)
  }

  lemma {:induction false} PrefixSumScale(s: seq<real>, t: seq<real>, a: real, n: nat)
    requires |t| == |s| && n <= |s|
    requires forall k :: 0 <= k < |s| ==> t[k] == a * s[k]
    ensures PrefixSum(t, n) == a * PrefixSum(s, n)
  {
    if n > 0 {
      PrefixSumScale(s, t, a, n - 1);
    }
  }

  /** Summation is linear: scaling every element scales the sum. */
  lemma SumScale(s: seq<real>, t: seq<real>, a: real)
    requires |t| == |s|
    requires forall k :: 0 <= k < |s| ==> t[k] == a * s[k]
    ensures Sum(t) == a * Sum(s)
  {
    PrefixSumScale(s, t, a, |s|);
  }

  lemma {:induction false} PrefixSumAdd(a: seq<real>, b: seq<real>, c: seq<real>, n: nat)
    requires |a| == |c| && |b| == |c| && n <= |c|
    requires forall k :: 0 <= k < |c| ==> c[k] == a[k] + b[k]
    ensures PrefixSum(c, n) == PrefixSum(a, n) + PrefixSum(b, n)
  {
    if n > 0 {
      PrefixSumAdd(a, b, c, n - 1);
    }
  }

  /** Summation is additive: the sum of element-wise sums is the sum of the
      two sums. */
  lemma SumAdd(a: seq<real>, b: seq<real>, c: seq<real>)
    requires |a| == |c| && |b| == |c|
    requires forall k :: 0 <= k < |c| ==> c[k] == a[k] + b[k]
    ensures Sum(c) == Sum(a) + Sum(b)
  {
    PrefixSumAdd(a, b, c, |c|);
  }

  lemma {:induction false} PrefixSumPositive(s: seq<real>, n: nat)
    requires 0 < n <= |s|
    requires forall k :: 0 <= k < |s| ==> s[k] > 0.0
    ensures PrefixSum(s, n) > 0.0
  {
    if n > 1 {
      PrefixSumPositive(s, n - 1);
    }
  }

  /** A non-empty sum of positive terms is positive. */
  lemma SumPositive(s: seq<real>)
    requires |s| > 0
    requires forall k :: 0 <= k < |s| ==> s[k] > 0.0
    ensures Sum(s) > 0.0
  {
    PrefixSumPositive(s, |s|);
  }

  // ---------------------------------------------------------------------
  // Scalar facts about quotients, kept apart so that each is proved in a
  // small context.

  /** A common nonzero factor cancels from a quotient. */
  lemma QuotientScale(x: real, s: real, a: real)
    requires a != 0.0 && s != 0.0
    ensures (a * x) / (a * s) == x / s
  {
  }

  /** A quotient of nonzero reals is nonzero. */
  lemma QuotientNonzero(x: real, s: real)
    requires x != 0.0 && s != 0.0
    ensures x / s != 0.0
  {
  }

  /** Multiplying and dividing by the same nonzero real cancel. */
  lemma ScaleCancels(x: real, c: real)
    requires c != 0.0
    ensures c * (x / c) == x
  {
  }

  /** A multiple of a nonzero real, divided by it, gives back the factor. */
  lemma QuotientOfMultiple(x: real, s: real, c: real)
    requires s != 0.0 && x == c * s
    ensures x / s == c
  {
  }

  /** A nonzero real divided by itself is one. */
  lemma SelfQuotient(x: real)
    requires x != 0.0
    ensures x / x == 1.0
  {
  }

  /** The sign of a quotient by a positive real is the sign of the dividend. */
  lemma QuotientSign(x: real, s: real)
    requires s > 0.0
    ensures x > 0.0 ==> x / s > 0.0
    ensures x <= 0.0 ==> x / s <= 0.0
  {
  }
}
