/** Exactness of the LMDI decomposition: for positive data, and a logarithm
    obeying the multiplicative laws, the total effect equals the ratio of
    total indicators, so the three drivers leave no residual. */
module Exactness {
  import opened Results
  import opened Logarithm
  import opened RealSeq
  import opened Lmdi
  import LmdiProperties

  // ---------------------------------------------------------------------
  // One sector

  /** The size ratio, intensity change and structure change of one sector
      multiply to the sector's indicator ratio. */
  lemma DriverRatio(y: real, yb: real, i: real, ib: real, total: real, totalBase: real)
    requires y > 0.0 && yb > 0.0 && i > 0.0 && ib > 0.0 && total > 0.0 && totalBase > 0.0
    ensures (total / totalBase) * ((i / y) / (ib / yb)) * ((y / total) / (yb / totalBase)) == i / ib
  {
  }

  /** So does the total indicator ratio times the change of the sector's
      indicator share. */
  lemma ShareRatio(i: real, ib: real, iTotal: real, iTotalBase: real)
    requires i > 0.0 && ib > 0.0 && iTotal > 0.0 && iTotalBase > 0.0
    ensures (iTotal / iTotalBase) * ((i / iTotal) / (ib / iTotalBase)) == i / ib
  {
  }

  /** In logarithms: the three drivers' logarithms of one sector add up to
      the logarithm of the total indicator ratio plus the log-change of the
      sector's indicator share. */
  lemma SectorLogs(m: LogModel, y: real, yb: real, i: real, ib: real,
                   total: real, totalBase: real, iTotal: real, iTotalBase: real)
    requires Multiplicative(m)
    requires y > 0.0 && yb > 0.0 && i > 0.0 && ib > 0.0
    requires total > 0.0 && totalBase > 0.0 && iTotal > 0.0 && iTotalBase > 0.0
    ensures m.ln(total / totalBase) + m.ln((i / y) / (ib / yb)) + m.ln((y / total) / (yb / totalBase))
            == m.ln(iTotal / iTotalBase) + (m.ln(i / iTotal) - m.ln(ib / iTotalBase))
  {
    var a, t, s := total / totalBase, (i / y) / (ib / yb), (y / total) / (yb / totalBase);
    var q, o, ob := iTotal / iTotalBase, i / iTotal, ib / iTotalBase;
    DriverRatio(y, yb, i, ib, total, totalBase);
    ShareRatio(i, ib, iTotal, iTotalBase);
    assert a > 0.0 && t > 0.0 && s > 0.0 && q > 0.0 && o > 0.0 && ob > 0.0;
    LnQuotient(m, o, ob);
    LogsOfEqualProducts(m, a, t, s, q, o / ob);
  }

  /** Equal products have equal logarithms, term by term. */
  lemma LogsOfEqualProducts(m: LogModel, a: real, t: real, s: real, q: real, r: real)
    requires Multiplicative(m)
    requires a > 0.0 && t > 0.0 && s > 0.0 && q > 0.0 && r > 0.0
    requires a * t * s == q * r
    ensures m.ln(a) + m.ln(t) + m.ln(s) == m.ln(q) + m.ln(r)
  {
    var at := a * t;
    LnProduct(m, a, t);
    LnProduct(m, at, s);
    LnProduct(m, q, r);
    SameLn(m, at * s, q * r);
  }

  /** Equal arguments have equal logarithms; called where the equality is
      one of products, which the solver does not carry into ln by itself. */
  lemma SameLn(m: LogModel, x: real, y: real)
    requires x == y
    ensures m.ln(x) == m.ln(y)
  {
  }

  // ---------------------------------------------------------------------
  // The log-mean weights

  /** The identity that makes the logarithmic mean the right weight: the
      weight l times the log-change gap of x against y is x - y. */
  ghost predicate GapIdentity(l: real, gap: real, x: real, y: real) {
    l * gap == x - y
  }

  /** The logarithmic mean satisfies `GapIdentity`, equal arguments
      included. */
  lemma LogMeanGap(m: LogModel, x: real, y: real, l: real, gap: real)
    requires Lawful(m)
    requires LogMean(m, x, y) == Success(l)
    requires gap == m.ln(x) - m.ln(y)
    ensures GapIdentity(l, gap, x, y)
  {
    if x != y {
      assert l * (m.ln(y) - m.ln(x)) == y - x;
    }
  }

  /** The logarithmic mean of two positive values is positive. */
  lemma LogMeanPositive(m: LogModel, x: real, y: real)
    requires Multiplicative(m)
    requires x > 0.0 && y > 0.0
    ensures LogMean(m, x, y).Success? && LogMean(m, x, y).value > 0.0
  {
    if x < y {
      LnMonotone(m, x, y);
      QuotientSign(y - x, m.ln(y) - m.ln(x));
    } else if y < x {
      LnMonotone(m, y, x);
      QuotientSign(x - y, m.ln(x) - m.ln(y));
      assert (y - x) / (m.ln(y) - m.ln(x)) == (x - y) / (m.ln(x) - m.ln(y));
    }
  }

  // ---------------------------------------------------------------------
  // Weighted sums

  /** The logarithm of every element. */
  function Logs(m: LogModel, s: seq<real>): (r: seq<real>)
    ensures |r| == |s|
  {
    seq(|s|, k requires 0 <= k < |s| => m.ln(s[k]))
  }

  /** The per-sector change ln(share) - ln(base share) of indicator shares. */
  function ShareGaps(m: LogModel, i: seq<real>, ib: seq<real>): (r: seq<real>)
    requires |ib| == |i|
    requires |i| == 0 || (Sum(i) != 0.0 && Sum(ib) != 0.0)
    ensures |r| == |i|
  {
    var omega, omegaBase := Shares(i), Shares(ib);
    seq(|i|, k requires 0 <= k < |i| => m.ln(omega[k]) - m.ln(omegaBase[k]))
  }

  lemma {:induction false} WeightedPrefixAdd(w: seq<real>, p: seq<real>, q: seq<real>, r: seq<real>, n: nat)
    requires |p| == |w| && |q| == |w| && |r| == |w| && n <= |w|
    requires forall k :: 0 <= k < |w| ==> r[k] == p[k] + q[k]
    ensures WeightedPrefix(w, r, n) == WeightedPrefix(w, p, n) + WeightedPrefix(w, q, n)
  {
    if n > 0 {
      WeightedPrefixAdd(w, p, q, r, n - 1);
      assert w[n - 1] * r[n - 1] == w[n - 1] * p[n - 1] + w[n - 1] * q[n - 1];
    }
  }

  /** A weighted sum is additive in the logarithms it weighs. */
  lemma WeightedAdd(w: seq<real>, p: seq<real>, q: seq<real>, r: seq<real>)
    requires |p| == |w| && |q| == |w| && |r| == |w|
    requires forall k :: 0 <= k < |w| ==> r[k] == p[k] + q[k]
    ensures WeightedLogSum(w, r) == WeightedLogSum(w, p) + WeightedLogSum(w, q)
  {
    WeightedPrefixAdd(w, p, q, r, |w|);
  }

  lemma {:induction false} WeightedPrefixIsSum(w: seq<real>, logs: seq<real>, t: seq<real>, n: nat)
    requires |logs| == |w| && |t| == |w| && n <= |w|
    requires forall k :: 0 <= k < |w| ==> t[k] == w[k] * logs[k]
    ensures WeightedPrefix(w, logs, n) == PrefixSum(t, n)
  {
    if n > 0 {
      WeightedPrefixIsSum(w, logs, t, n - 1);
    }
  }

  /** A weighted sum is the sum of its terms. */
  lemma WeightedIsSum(w: seq<real>, logs: seq<real>, t: seq<real>)
    requires |logs| == |w| && |t| == |w|
    requires forall k :: 0 <= k < |w| ==> t[k] == w[k] * logs[k]
    ensures WeightedLogSum(w, logs) == Sum(t)
  {
    WeightedPrefixIsSum(w, logs, t, |w|);
  }

  /** A normalised weight times a gap is the raw weight times the gap,
      scaled by the inverse of the weight total. */
  lemma NormalisedTerm(weight: real, total: real, raw: real, gap: real)
    requires total != 0.0 && weight * total == raw
    ensures weight * gap == (1.0 / total) * (raw * gap)
  {
    ScaleCancels(weight, total);
  }

  // ---------------------------------------------------------------------
  // The exponents

  /** Weighted by normalised weights, gaps cancel when each raw weight
      times its gap is the change of a share: both share sequences sum to
      one, so the changes sum to zero. */
  lemma GapsCancel(weights: seq<real>, gaps: seq<real>, i: seq<real>, ib: seq<real>)
    requires |gaps| == |weights| && |i| == |weights| && |ib| == |weights| && |i| > 0
    requires Sum(i) != 0.0 && Sum(ib) != 0.0 && Sum(weights) != 0.0
    requires forall k :: 0 <= k < |weights| ==> GapIdentity(weights[k], gaps[k], Shares(i)[k], Shares(ib)[k])
    ensures WeightedLogSum(Shares(weights), gaps) == 0.0
  {
    var total, normalised := Sum(weights), Shares(weights);
    var omega, omegaBase := Shares(i), Shares(ib);
    var diffs := seq(|weights|, k requires 0 <= k < |weights| => omega[k] - omegaBase[k]);
    var terms := seq(|weights|, k requires 0 <= k < |weights| => normalised[k] * gaps[k]);
    forall k | 0 <= k < |weights|
      ensures terms[k] == (1.0 / total) * diffs[k]
    {
      NormalisedTerm(normalised[k], total, weights[k], gaps[k]);
    }
    WeightedIsSum(normalised, gaps, terms);
    SumScale(diffs, terms, 1.0 / total);
    SumAdd(diffs, omegaBase, omega);
  }

  /** Three weighted sums, under weights summing to one, whose terms add
      sector by sector to a constant plus a gap, where the gaps' weighted
      sum vanishes, add up to that constant. */
  lemma ThreeSums(w: seq<real>, p: seq<real>, q: seq<real>, r: seq<real>, gaps: seq<real>, c: real)
    requires |p| == |w| && |q| == |w| && |r| == |w| && |gaps| == |w|
    requires Sum(w) == 1.0 && WeightedLogSum(w, gaps) == 0.0
    requires forall k :: 0 <= k < |w| ==> p[k] + q[k] + r[k] == c + gaps[k]
    ensures WeightedLogSum(w, p) + WeightedLogSum(w, q) + WeightedLogSum(w, r) == c
  {
    var u := seq(|w|, k requires 0 <= k < |w| => p[k] + q[k]);
    WeightedAdd(w, p, q, u);
    var v := seq(|w|, k requires 0 <= k < |w| => u[k] + r[k]);
    WeightedAdd(w, u, r, v);
    var constant := seq(|w|, k requires 0 <= k < |w| => c);
    WeightedAdd(w, constant, gaps, v);
    LmdiProperties.WeightedConstant(w, constant, c);
  }

  /** Sector k of the engine: the logarithms of its size ratio, intensity
      change and structure change add up to the logarithm of the total
      indicator ratio plus the log-change of its indicator share. */
  lemma EngineSector(m: LogModel, y: seq<real>, yb: seq<real>, i: seq<real>, ib: seq<real>, k: nat)
    requires Multiplicative(m)
    requires Domain(y, yb, i, ib) && k < |y|
    requires forall j :: 0 <= j < |y| ==> y[j] > 0.0 && yb[j] > 0.0 && i[j] > 0.0 && ib[j] > 0.0
    ensures Logs(m, SizeRatios(y, yb))[k] + Logs(m, IntensityChange(y, yb, i, ib))[k]
            + Logs(m, StructureChange(y, yb))[k]
            == m.ln(Sum(i) / Sum(ib)) + ShareGaps(m, i, ib)[k]
  {
    SumPositive(y);
    SumPositive(yb);
    SumPositive(i);
    SumPositive(ib);
    assert SizeRatios(y, yb)[k] == Sum(y) / Sum(yb);
    assert IntensityChange(y, yb, i, ib)[k] == (i[k] / y[k]) / (ib[k] / yb[k]);
    assert StructureChange(y, yb)[k] == (y[k] / Sum(y)) / (yb[k] / Sum(yb));
    assert ShareGaps(m, i, ib)[k] == m.ln(i[k] / Sum(i)) - m.ln(ib[k] / Sum(ib));
    SectorLogs(m, y[k], yb[k], i[k], ib[k], Sum(y), Sum(yb), Sum(i), Sum(ib));
  }

  /** For positive change factors a Divisia effect is exp of the weighted
      sum of their logarithms. */
  lemma PositiveDivisia(m: LogModel, w: seq<real>, changes: seq<real>)
    requires Lawful(m)
    requires |changes| == |w|
    requires forall k :: 0 <= k < |changes| ==> changes[k] > 0.0
    ensures DivisiaEffect(m, w, changes) == Success(m.exp(WeightedLogSum(w, Logs(m, changes))))
  {
    var logs := ModifiedLogs(m, changes);
    assert logs.Success?;
    assert logs.value == Logs(m, changes);
  }

  /** Positive indicators have positive log-mean weights, so their sum is
      not zero and the engine takes the weighted branch. */
  lemma PositiveWeightSum(m: LogModel, i: seq<real>, ib: seq<real>)
    requires Multiplicative(m)
    requires |ib| == |i| && |i| > 0
    requires forall k :: 0 <= k < |i| ==> i[k] > 0.0 && ib[k] > 0.0
    ensures Sum(i) > 0.0 && Sum(ib) > 0.0
    ensures LogMeanWeights(m, i, ib).Success?
    ensures Sum(LogMeanWeights(m, i, ib).value) > 0.0
  {
    LmdiProperties.SharesPositive(i);
    LmdiProperties.SharesPositive(ib);
    WeightsAreLogMeans(m, i, ib);
    var weights := LogMeanWeights(m, i, ib).value;
    forall k | 0 <= k < |i|
      ensures weights[k] > 0.0
    {
      LogMeanPositive(m, Shares(i)[k], Shares(ib)[k]);
    }
    SumPositive(weights);
  }

  /** The exponents of the three effects add up to the logarithm of the
      ratio of total indicators. */
  lemma ExponentSum(m: LogModel, y: seq<real>, yb: seq<real>, i: seq<real>, ib: seq<real>)
    requires Multiplicative(m)
    requires Domain(y, yb, i, ib) && |y| > 0
    requires forall k :: 0 <= k < |y| ==> y[k] > 0.0 && yb[k] > 0.0 && i[k] > 0.0 && ib[k] > 0.0
    requires LogMeanWeights(m, i, ib).Success? && Sum(LogMeanWeights(m, i, ib).value) != 0.0
    ensures var w := Shares(LogMeanWeights(m, i, ib).value);
            WeightedLogSum(w, Logs(m, SizeRatios(y, yb)))
            + WeightedLogSum(w, Logs(m, IntensityChange(y, yb, i, ib)))
            + WeightedLogSum(w, Logs(m, StructureChange(y, yb)))
            == m.ln(Sum(i) / Sum(ib))
  {
    EngineSectors(m, y, yb, i, ib);
    EngineGapsCancel(m, i, ib);
    ThreeSums(Shares(LogMeanWeights(m, i, ib).value),
              Logs(m, SizeRatios(y, yb)), Logs(m, IntensityChange(y, yb, i, ib)),
              Logs(m, StructureChange(y, yb)), ShareGaps(m, i, ib), m.ln(Sum(i) / Sum(ib)));
  }

  /** `EngineSector` for every sector. */
  lemma EngineSectors(m: LogModel, y: seq<real>, yb: seq<real>, i: seq<real>, ib: seq<real>)
    requires Multiplicative(m)
    requires Domain(y, yb, i, ib)
    requires forall k :: 0 <= k < |y| ==> y[k] > 0.0 && yb[k] > 0.0 && i[k] > 0.0 && ib[k] > 0.0
    ensures forall k :: 0 <= k < |y| ==>
      Logs(m, SizeRatios(y, yb))[k] + Logs(m, IntensityChange(y, yb, i, ib))[k]
      + Logs(m, StructureChange(y, yb))[k] == m.ln(Sum(i) / Sum(ib)) + ShareGaps(m, i, ib)[k]
  {
    forall k | 0 <= k < |y|
      ensures Logs(m, SizeRatios(y, yb))[k] + Logs(m, IntensityChange(y, yb, i, ib))[k]
              + Logs(m, StructureChange(y, yb))[k] == m.ln(Sum(i) / Sum(ib)) + ShareGaps(m, i, ib)[k]
    {
      EngineSector(m, y, yb, i, ib, k);
    }
  }

  /** The log-mean weight of each sector times the log-change of its
      indicator share is the change of that share. */
  lemma EngineGaps(m: LogModel, i: seq<real>, ib: seq<real>)
    requires Lawful(m)
    requires |ib| == |i| && |i| > 0 && Sum(i) != 0.0 && Sum(ib) != 0.0
    requires LogMeanWeights(m, i, ib).Success?
    ensures forall k :: 0 <= k < |i| ==>
      GapIdentity(LogMeanWeights(m, i, ib).value[k], ShareGaps(m, i, ib)[k], Shares(i)[k], Shares(ib)[k])
  {
    WeightsAreLogMeans(m, i, ib);
    forall k | 0 <= k < |i|
      ensures GapIdentity(LogMeanWeights(m, i, ib).value[k], ShareGaps(m, i, ib)[k], Shares(i)[k], Shares(ib)[k])
    {
      var x, y := Shares(i)[k], Shares(ib)[k];
      var l, gap := LogMeanWeights(m, i, ib).value[k], ShareGaps(m, i, ib)[k];
      LogMeanGap(m, x, y, l, gap);
    }
  }

  /** `GapsCancel` for the engine's own weights and indicator shares. */
  lemma EngineGapsCancel(m: LogModel, i: seq<real>, ib: seq<real>)
    requires Lawful(m)
    requires |ib| == |i| && |i| > 0 && Sum(i) != 0.0 && Sum(ib) != 0.0
    requires LogMeanWeights(m, i, ib).Success? && Sum(LogMeanWeights(m, i, ib).value) != 0.0
    ensures WeightedLogSum(Shares(LogMeanWeights(m, i, ib).value), ShareGaps(m, i, ib)) == 0.0
  {
    var weights := LogMeanWeights(m, i, ib).value;
    EngineGaps(m, i, ib);
    GapsCancel(weights, ShareGaps(m, i, ib), i, ib);
  }

  // ---------------------------------------------------------------------
  // The theorem

  /** Three exponentials whose exponents add up to ln x multiply to x. */
  lemma ProductOfExps(m: LogModel, a: real, b: real, c: real, x: real)
    requires Multiplicative(m)
    requires x > 0.0 && a + b + c == m.ln(x)
    ensures Combine(m.exp(a), m.exp(b), m.exp(c)).total == x
  {
    ExpSum(m, a, b);
    ExpSum(m, a + b, c);
    assert m.exp(m.ln(x)) == x;
  }

  /** For positive data the decomposition is exact: the engine succeeds and
      its total effect, the product of the three drivers, is the ratio of
      total indicators. */
  lemma ExactDecomposition(m: LogModel, y: seq<real>, yb: seq<real>, i: seq<real>, ib: seq<real>)
    requires Multiplicative(m)
    requires |yb| == |y| && |i| == |y| && |ib| == |y| && |y| > 0
    requires forall k :: 0 <= k < |y| ==> y[k] > 0.0 && yb[k] > 0.0 && i[k] > 0.0 && ib[k] > 0.0
    ensures Domain(y, yb, i, ib)
    ensures Indices(m, y, yb, i, ib).Success?
    ensures Indices(m, y, yb, i, ib).value.total == Sum(i) / Sum(ib)
  {
    LmdiProperties.PositiveChanges(y, yb, i, ib);
    PositiveWeightSum(m, i, ib);
    var weights := LogMeanWeights(m, i, ib).value;
    var w := Shares(weights);
    var a := WeightedLogSum(w, Logs(m, SizeRatios(y, yb)));
    var b := WeightedLogSum(w, Logs(m, IntensityChange(y, yb, i, ib)));
    var c := WeightedLogSum(w, Logs(m, StructureChange(y, yb)));
    PositiveDivisia(m, w, SizeRatios(y, yb));
    PositiveDivisia(m, w, IntensityChange(y, yb, i, ib));
    PositiveDivisia(m, w, StructureChange(y, yb));
    LmdiProperties.WeightedEffectsOf(m, weights, y, yb, i, ib, m.exp(a), m.exp(b), m.exp(c));
    ExponentSum(m, y, yb, i, ib);
    QuotientSign(Sum(i), Sum(ib));
    ProductOfExps(m, a, b, c, Sum(i) / Sum(ib));
  }

  /** The totals of the two-sector example below. */
  lemma ExampleTotals()
    ensures Sum([1.2, 3.3]) == 4.5 && Sum([1.0, 3.0]) == 4.0
    ensures Sum([2.4, 6.6]) == 9.0 && Sum([2.0, 6.0]) == 8.0
  {
    assert PrefixSum([1.2, 3.3], 1) == 1.2;
    assert PrefixSum([1.0, 3.0], 1) == 1.0;
    assert PrefixSum([2.4, 6.6], 1) == 2.4;
    assert PrefixSum([2.0, 6.0], 1) == 2.0;
  }

  /** A sector whose intensity is the same in both states has intensity
      change 1. */
  lemma SameIntensity(y: real, yb: real, i: real, ib: real)
    requires y != 0.0 && yb != 0.0 && ib != 0.0
    requires i * yb == ib * y
    ensures (i / y) / (ib / yb) == 1.0
  {
    var a, b := i / y, ib / yb;
    assert a * y == i;
    assert b * yb == ib;
    assert a * y * yb == b * yb * y;
  }

  /** When no sector's intensity (indicator per size) changes, the engine
      succeeds with technology effect 1, total effect the ratio of total
      indicators and scale effect the ratio of total sizes; the composition
      effect is then what remains of the total after the scale. */
  lemma ConstantIntensities(m: LogModel, y: seq<real>, yb: seq<real>, i: seq<real>, ib: seq<real>)
    requires Multiplicative(m)
    requires |yb| == |y| && |i| == |y| && |ib| == |y| && |y| > 0
    requires forall k :: 0 <= k < |y| ==> y[k] > 0.0 && yb[k] > 0.0 && i[k] > 0.0 && ib[k] > 0.0
    requires forall k :: 0 <= k < |y| ==> i[k] * yb[k] == ib[k] * y[k]
    ensures Domain(y, yb, i, ib)
    ensures Indices(m, y, yb, i, ib).Success?
    ensures var e := Indices(m, y, yb, i, ib).value;
            e.total == Sum(i) / Sum(ib) && e.scale == Sum(y) / Sum(yb) && e.tech == 1.0
  {
    ExactDecomposition(m, y, yb, i, ib);
    PositiveWeightSum(m, i, ib);
    LmdiProperties.ScaleEffectIsSizeRatio(m, y, yb, i, ib);
    UnitIntensityChanges(y, yb, i, ib);
    UnitTechnologyEffect(m, y, yb, i, ib);
  }

  /** In the non-degenerate branch, intensity changes of 1 in every sector
      give a technology effect of 1. */
  lemma UnitTechnologyEffect(m: LogModel, y: seq<real>, yb: seq<real>, i: seq<real>, ib: seq<real>)
    requires Lawful(m)
    requires Domain(y, yb, i, ib)
    requires LogMeanWeights(m, i, ib).Success? && Sum(LogMeanWeights(m, i, ib).value) != 0.0
    requires Indices(m, y, yb, i, ib).Success?
    requires forall k :: 0 <= k < |y| ==> IntensityChange(y, yb, i, ib)[k] == 1.0
    ensures Indices(m, y, yb, i, ib).value.tech == 1.0
  {
    var weights := LogMeanWeights(m, i, ib).value;
    LmdiProperties.UniformChange(m, Shares(weights), IntensityChange(y, yb, i, ib), 1.0);
  }

  /** Sector by sector, unchanged intensities give intensity changes of 1. */
  lemma UnitIntensityChanges(y: seq<real>, yb: seq<real>, i: seq<real>, ib: seq<real>)
    requires Domain(y, yb, i, ib)
    requires forall k :: 0 <= k < |y| ==> i[k] * yb[k] == ib[k] * y[k]
    ensures forall k :: 0 <= k < |y| ==> IntensityChange(y, yb, i, ib)[k] == 1.0
  {
    forall k | 0 <= k < |y|
      ensures IntensityChange(y, yb, i, ib)[k] == 1.0
    {
      SameIntensity(y[k], yb[k], i[k], ib[k]);
    }
  }

  /** Two sectors whose sizes grow from 1 and 3 to 1.2 and 3.3 while their
      indicators grow from 2 and 6 to 2.4 and 6.6: every intensity stays 2,
      so technology is 1; the total grows from 8 to 9 and the sizes from 4 to
      4.5, so total and scale are both 1.125 and composition is 1. */
  lemma UnchangedIntensityExample(m: LogModel)
    requires Multiplicative(m)
    ensures Domain([1.2, 3.3], [1.0, 3.0], [2.4, 6.6], [2.0, 6.0])
    ensures Indices(m, [1.2, 3.3], [1.0, 3.0], [2.4, 6.6], [2.0, 6.0])
            == Success(Effects(1.125, 1.125, 1.0, 1.0))
  {
    ExampleTotals();
    ConstantIntensities(m, [1.2, 3.3], [1.0, 3.0], [2.4, 6.6], [2.0, 6.0]);
  }
}
