/** Sums and arithmetic means of millisecond timings (`Array.prototype.reduce` followed by a division). */
module Stats {

  /** The sum of `xs`, folded left to right as `reduce((a, b) => a + b)` does. */
  function Sum(xs: seq<nat>): nat
  {
    if xs == [] then 0 else Sum(xs[..|xs| - 1]) + xs[|xs| - 1]
  }

  /** The smallest value of a non-empty list. */
  function Min(xs: seq<nat>): (m: nat)
    requires xs != []
    ensures m in xs
    ensures forall i :: 0 <= i < |xs| ==> m <= xs[i]
  {
    if |xs| == 1 then xs[0]
    else
      var rest := Min(xs[..|xs| - 1]);
      if xs[|xs| - 1] < rest then xs[|xs| - 1] else rest
  }

  /** The largest value of a non-empty list. */
  function Max(xs: seq<nat>): (m: nat)
    requires xs != []
    ensures m in xs
    ensures forall i :: 0 <= i < |xs| ==> xs[i] <= m
  {
    if |xs| == 1 then xs[0]
    else
      var rest := Max(xs[..|xs| - 1]);
      if xs[|xs| - 1] > rest then xs[|xs| - 1] else rest
  }

  /** The arithmetic mean: the sum divided by the number of values. */
  function Mean(xs: seq<nat>): real
    requires xs != []
  {
    Sum(xs) as real / |xs| as real
  }

  lemma {:induction false} SumConcat(a: seq<nat>, b: seq<nat>)
    ensures Sum(a + b) == Sum(a) + Sum(b)
    decreases |b|
  {
    if b == [] {
      assert a + b == a;
    } else {
      assert (a + b)[..|a + b| - 1] == a + b[..|b| - 1];
      SumConcat(a, b[..|b| - 1]);
    }
  }

  /** A lower bound on every value, times the count, is a lower bound on the sum. */
  lemma {:induction false} SumAtLeast(xs: seq<nat>, lo: nat)
    requires forall i :: 0 <= i < |xs| ==> lo <= xs[i]
    ensures |xs| * lo <= Sum(xs)
  {
    if xs != [] {
      var n := |xs| - 1;
      SumAtLeast(xs[..n], lo);
      assert |xs| * lo == n * lo + lo;
    }
  }

  /** An upper bound on every value, times the count, is an upper bound on the sum. */
  lemma {:induction false} SumAtMost(xs: seq<nat>, hi: nat)
    requires forall i :: 0 <= i < |xs| ==> xs[i] <= hi
    ensures Sum(xs) <= |xs| * hi
  {
    if xs != [] {
      var n := |xs| - 1;
      SumAtMost(xs[..n], hi);
      assert |xs| * hi == n * hi + hi;
    }
  }

  lemma DivisionBetween(s: real, n: real, lo: real, hi: real)
    requires n > 0.0 && n * lo <= s <= n * hi
    ensures lo <= s / n <= hi
  {
  }

  lemma CastProduct(n: nat, v: nat)
    ensures (n * v) as real == n as real * v as real
  {
  }

  /** Integer bounds on a sum carry over to the quotient by the count. */
  lemma QuotientBetween(sum: nat, n: nat, lo: nat, hi: nat)
    requires n > 0 && n * lo <= sum <= n * hi
    ensures lo as real <= sum as real / n as real <= hi as real
  {
    CastProduct(n, lo);
    CastProduct(n, hi);
    DivisionBetween(sum as real, n as real, lo as real, hi as real);
  }

  /** A mean never falls outside the range of the values it averages. */
  lemma MeanWithinRange(xs: seq<nat>)
    requires xs != []
    ensures Min(xs) as real <= Mean(xs) <= Max(xs) as real
  {
    SumAtLeast(xs, Min(xs));
    SumAtMost(xs, Max(xs));
    QuotientBetween(Sum(xs), |xs|, Min(xs), Max(xs));
  }

  /** Taking one value out of a list lowers its sum by exactly that value. */
  lemma {:induction false} SumWithout(b: seq<nat>, k: nat)
    requires k < |b|
    ensures Sum(b) == Sum(b[..k] + b[k + 1..]) + b[k]
    decreases |b|
  {
    var init, last := b[..|b| - 1], b[|b| - 1];
    if k == |b| - 1 {
      assert b[..k] + b[k + 1..] == init;
    } else {
      SumWithout(init, k);
      var rest := init[..k] + init[k + 1..];
      assert b[..k] + b[k + 1..] == rest + [last];
      assert (rest + [last])[..|rest|] == rest;
    }
  }

  lemma MultisetWithout(b: seq<nat>, k: nat)
    requires k < |b|
    ensures multiset(b[..k] + b[k + 1..]) == multiset(b) - multiset{b[k]}
  {
    assert b == b[..k] + [b[k]] + b[k + 1..];
  }

  /** The sum depends only on which values occur, not on their order. */
  lemma {:induction false} SumPermutation(a: seq<nat>, b: seq<nat>)
    requires multiset(a) == multiset(b)
    ensures Sum(a) == Sum(b)
    decreases |a|
  {
    if a == [] {
      assert |b| == |multiset(b)| == 0;
    } else {
      var x := a[|a| - 1];
      var init := a[..|a| - 1];
      assert a == init + [x];
      assert x in multiset(b);
      var k :| 0 <= k < |b| && b[k] == x;
      var rest := b[..k] + b[k + 1..];
      MultisetWithout(b, k);
      MultisetWithout(a, |a| - 1);
      assert a[..|a| - 1] + a[|a|..] == init;
      SumPermutation(init, rest);
      SumWithout(b, k);
    }
  }

  /** Reordering the values leaves their mean unchanged. */
  lemma MeanPermutation(a: seq<nat>, b: seq<nat>)
    requires a != [] && multiset(a) == multiset(b)
    ensures b != [] && Mean(a) == Mean(b)
  {
    assert |a| == |multiset(a)| == |multiset(b)| == |b|;
    SumPermutation(a, b);
  }
}
