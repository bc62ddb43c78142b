/** Exact real-valued counterparts of the pandas statistics the dashboard uses:
    `Series.mean()` and the sample variance behind `Series.std()`. */
module Stats {
  import opened Wrappers

  function Sum(xs: seq<real>): real {
    if |xs| == 0 then 0.0 else xs[0] + Sum(xs[1..])
  }

  /** The least element of a non-empty sequence. */
  function Min(xs: seq<real>): (m: real)
    requires |xs| > 0
    ensures m in xs
    ensures forall x :: x in xs ==> m <= x
  {
    if |xs| == 1 then xs[0]
    else
      var rest := Min(xs[1..]);
      assert forall x :: x in xs ==> x == xs[0] || x in xs[1..];
      if xs[0] <= rest then xs[0] else rest
  }

  /** The greatest element of a non-empty sequence. */
  function Max(xs: seq<real>): (m: real)
    requires |xs| > 0
    ensures m in xs
    ensures forall x :: x in xs ==> x <= m
  {
    if |xs| == 1 then xs[0]
    else
      var rest := Max(xs[1..]);
      assert forall x :: x in xs ==> x == xs[0] || x in xs[1..];
      if xs[0] >= rest then xs[0] else rest
  }

  /** A lower bound on every element, taken `|xs|` times, bounds the total from below. */
  lemma {:induction false} SumAtLeast(xs: seq<real>, lo: real)
    requires forall x :: x in xs ==> lo <= x
    ensures (|xs| as real) * lo <= Sum(xs)
    decreases |xs|
  {
    if |xs| > 0 {
      var rest := xs[1..];
      assert forall x :: x in rest ==> x in xs;
      assert xs[0] in xs;
      SumAtLeast(rest, lo);
      assert (|xs| as real) * lo == lo + (|rest| as real) * lo;
    }
  }

  /** An upper bound on every element, taken `|xs|` times, bounds the total from above. */
  lemma {:induction false} SumAtMost(xs: seq<real>, hi: real)
    requires forall x :: x in xs ==> x <= hi
    ensures Sum(xs) <= (|xs| as real) * hi
    decreases |xs|
  {
    if |xs| > 0 {
      var rest := xs[1..];
      assert forall x :: x in rest ==> x in xs;
      assert xs[0] in xs;
      SumAtMost(rest, hi);
      assert (|xs| as real) * hi == hi + (|rest| as real) * hi;
    }
  }

  /** Dividing by a positive count keeps the bounds `n * lo <= total <= n * hi`. */
  lemma DivideBounds(lo: real, hi: real, total: real, n: real)
    requires n > 0.0 && n * lo <= total <= n * hi
    ensures lo <= total / n <= hi
  {
    var m := total / n;
    assert n * m == total;
  }

  /** The arithmetic mean of a non-empty sequence: the total over the count, which
      lies between the least and the greatest element. */
  function Mean(xs: seq<real>): (m: real)
    requires |xs| > 0
    ensures m == Sum(xs) / (|xs| as real)
    ensures Min(xs) <= m <= Max(xs)
  {
    var n := |xs| as real;
    SumAtLeast(xs, Min(xs));
    SumAtMost(xs, Max(xs));
    DivideBounds(Min(xs), Max(xs), Sum(xs), n);
    Sum(xs) / n
  }

  /** `Series.mean()`: the mean, or None (NaN) for an empty series. */
  function Average(xs: seq<real>): (r: Option<real>)
    ensures r.None? <==> |xs| == 0
    ensures r.Some? ==> r.value == Sum(xs) / (|xs| as real)
    ensures r.Some? ==> Min(xs) <= r.value <= Max(xs)
  {
    if |xs| == 0 then None else Some(Mean(xs))
  }

  /** Sum of squared deviations of `xs` from `m`. */
  function SquaredDeviations(xs: seq<real>, m: real): (d: real)
    ensures d >= 0.0
  {
    if |xs| == 0 then 0.0
    else
      var d := xs[0] - m;
      assert d * d >= 0.0 by {
        if d < 0.0 {
          assert d * d == (-d) * (-d);
        }
      }
      d * d + SquaredDeviations(xs[1..], m)
  }

  /** `s` is what `Series.std()` returns for `xs`: a non-negative number whose square is
      the sample variance, wherever that is defined. */
  predicate IsSampleDeviation(xs: seq<real>, s: real) {
    s >= 0.0 && (|xs| >= 2 ==> s * s == SampleVariance(xs))
  }

  /** The sample variance (`ddof = 1`), the square of what `Series.std()` returns;
      pandas leaves it undefined for fewer than two values. */
  function SampleVariance(xs: seq<real>): (v: real)
    requires |xs| >= 2
    ensures v >= 0.0
  {
    SquaredDeviations(xs, Mean(xs)) / ((|xs| - 1) as real)
  }
}
