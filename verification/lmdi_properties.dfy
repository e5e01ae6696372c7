/** Properties of the LMDI engine: the logarithmic mean is symmetric, the
    degenerate branch yields zeros, the scale effect is the ratio of total
    sizes, uniform growth is attributed to scale and intensity alone, and
    the engine's domain errors occur exactly where a logarithm is undefined. */
module LmdiProperties {
  import opened Results
  import opened Logarithm
  import opened RealSeq
  import opened Lmdi

  // ---------------------------------------------------------------------
  // The logarithmic mean

  /** logMean(x, y) == logMean(y, x) for all x and y, failures included. */
  lemma LogMeanSymmetric(m: LogModel, x: real, y: real)
    requires Lawful(m)
    ensures LogMean(m, x, y) == LogMean(m, y, x)
  {
    if x != y && x > 0.0 && y > 0.0 {
      LnInjective(m, x, y);
      var d := m.ln(y) - m.ln(x);
      assert (y - x) / d == (x - y) / (m.ln(x) - m.ln(y));
    }
  }

  // ---------------------------------------------------------------------
  // Weighted sums

  /** A weighted sum of one repeated logarithm is that logarithm times the
      total weight. */
  lemma WeightedConstant(w: seq<real>, logs: seq<real>, c: real)
    requires |logs| == |w|
    requires forall k :: 0 <= k < |logs| ==> logs[k] == c
    ensures WeightedLogSum(w, logs) == c * Sum(w)
  {
    WeightedPrefixConstant(w, logs, c, |w|);
  }

  lemma {:induction false} WeightedPrefixConstant(w: seq<real>, logs: seq<real>, c: real, n: nat)
    requires |logs| == |w| && n <= |w|
    requires forall k :: 0 <= k < |logs| ==> logs[k] == c
    ensures WeightedPrefix(w, logs, n) == c * PrefixSum(w, n)
  {
    if n > 0 {
      WeightedPrefixConstant(w, logs, c, n - 1);
      assert logs[n - 1] == c;
    }
  }

  // ---------------------------------------------------------------------
  // The degenerate branch and the scale effect

  /** When the log-mean weights are defined and sum to zero, every effect is
      zero and no error is raised. */
  lemma DegenerateBranch(m: LogModel, y: seq<real>, yb: seq<real>, i: seq<real>, ib: seq<real>)
    requires Lawful(m)
    requires Domain(y, yb, i, ib)
    requires LogMeanWeights(m, i, ib).Success?
    requires Sum(LogMeanWeights(m, i, ib).value) == 0.0
    ensures Indices(m, y, yb, i, ib) == Success(Effects(0.0, 0.0, 0.0, 0.0))
  {
  }

  /** A Divisia effect whose weights sum to one, aggregating the same
      positive change v in every sector, is v itself. */
  lemma UniformChange(m: LogModel, w: seq<real>, changes: seq<real>, v: real)
    requires Lawful(m)
    requires |changes| == |w| && Sum(w) == 1.0
    requires v > 0.0
    requires forall k :: 0 <= k < |changes| ==> changes[k] == v
    ensures DivisiaEffect(m, w, changes) == Success(v)
  {
    var logs := ModifiedLogs(m, changes);
    assert logs.Success?;
    WeightedConstant(w, logs.value, m.ln(v));
  }

  /** In the non-degenerate branch a successful scale effect is the ratio of
      total sizes. */
  lemma WeightedScaleIsSizeRatio(m: LogModel, weights: seq<real>,
                                 y: seq<real>, yb: seq<real>, i: seq<real>, ib: seq<real>)
    requires Lawful(m)
    requires Domain(y, yb, i, ib)
    requires |weights| == |y| && Sum(weights) != 0.0
    requires WeightedEffects(m, weights, y, yb, i, ib).Success?
    ensures WeightedEffects(m, weights, y, yb, i, ib).value.scale == Sum(y) / Sum(yb)
  {
    var normalised := Shares(weights);
    var ratios := SizeRatios(y, yb);
    var v := Sum(y) / Sum(yb);
    assert DivisiaEffect(m, normalised, ratios).Success?;
    assert ratios[0] == v && v >= 0.0;
    QuotientNonzero(Sum(y), Sum(yb));
    UniformChange(m, normalised, ratios, v);
  }

  /** On success the scale effect is zero exactly in the degenerate branch;
      otherwise it is the ratio of total sizes. */
  lemma ScaleEffectIsSizeRatio(m: LogModel, y: seq<real>, yb: seq<real>, i: seq<real>, ib: seq<real>)
    requires Lawful(m)
    requires Domain(y, yb, i, ib)
    requires Indices(m, y, yb, i, ib).Success?
    ensures LogMeanWeights(m, i, ib).Success?
    ensures var e := Indices(m, y, yb, i, ib).value;
            if Sum(LogMeanWeights(m, i, ib).value) == 0.0 then e == Zero
            else e.scale == Sum(y) / Sum(yb) && e.scale != 0.0
  {
    var weights := LogMeanWeights(m, i, ib).value;
    if Sum(weights) != 0.0 {
      WeightedScaleIsSizeRatio(m, weights, y, yb, i, ib);
      assert Sum(y) / Sum(yb) != 0.0;
    }
  }

  // ---------------------------------------------------------------------
  // Uniform growth and self-comparison

  /** Scaling every element of a sequence leaves its shares unchanged. */
  lemma {:induction false} SharesScaleInvariant(s: seq<real>, t: seq<real>, a: real)
    requires |t| == |s| && |s| > 0
    requires a != 0.0 && Sum(s) != 0.0
    requires forall k :: 0 <= k < |s| ==> t[k] == a * s[k]
    ensures Sum(t) == a * Sum(s) && Sum(t) != 0.0
    ensures Shares(t) == Shares(s)
  {
    SumScale(s, t, a);
    forall k | 0 <= k < |s|
      ensures Shares(t)[k] == Shares(s)[k]
    {
      QuotientScale(s[k], Sum(s), a);
      assert (a * s[k]) / (a * Sum(s)) == s[k] / Sum(s);
      assert t[k] / Sum(t) == s[k] / Sum(s);
    }
  }

  /** Sizes scaled by c have total-size ratio c. */
  lemma SizeRatioOfScaled(y: seq<real>, yb: seq<real>, c: real)
    requires |y| == |yb| && Sum(yb) != 0.0
    requires forall k :: 0 <= k < |y| ==> y[k] == c * yb[k]
    ensures Sum(y) / Sum(yb) == c
  {
    SumScale(yb, y, c);
    QuotientOfMultiple(Sum(y), Sum(yb), c);
  }

  /** Identical indicator shares are their own log-mean weights. */
  lemma SameSharesWeights(m: LogModel, i: seq<real>, ib: seq<real>)
    requires Lawful(m)
    requires |ib| == |i| && |i| > 0 && Sum(i) != 0.0 && Sum(ib) != 0.0
    requires Shares(i) == Shares(ib)
    ensures LogMeanWeights(m, i, ib) == Success(Shares(ib))
  {
    WeightsAreLogMeans(m, i, ib);
    var lw := LogMeanWeights(m, i, ib);
    assert lw.Success?;
    assert lw.value == Shares(ib);
  }

  /** Every intensity changes by d / c when sizes scale by c and indicators
      by d. */
  lemma UniformIntensityChange(y: seq<real>, yb: seq<real>, i: seq<real>, ib: seq<real>, c: real, d: real)
    requires Domain(y, yb, i, ib)
    requires c > 0.0 && d > 0.0
    requires forall k :: 0 <= k < |y| ==> y[k] == c * yb[k] && i[k] == d * ib[k]
    ensures forall k :: 0 <= k < |y| ==> IntensityChange(y, yb, i, ib)[k] == d / c
  {
    forall k | 0 <= k < |y|
      ensures IntensityChange(y, yb, i, ib)[k] == d / c
    {
      IntensityRatio(y[k], yb[k], i[k], ib[k], c, d);
    }
  }

  /** Unchanged shares give a structure change of one in every sector. */
  lemma UnchangedStructure(y: seq<real>, yb: seq<real>)
    requires |yb| == |y| && |y| > 0 && Sum(y) != 0.0 && Sum(yb) != 0.0
    requires forall k :: 0 <= k < |yb| ==> yb[k] != 0.0
    requires Shares(y) == Shares(yb)
    ensures forall k :: 0 <= k < |y| ==> StructureChange(y, yb)[k] == 1.0
  {
    forall k | 0 <= k < |y|
      ensures StructureChange(y, yb)[k] == 1.0
    {
      var share := Shares(yb)[k];
      QuotientNonzero(yb[k], Sum(yb));
      SelfQuotient(share);
      assert StructureChange(y, yb)[k] == share / share;
    }
  }

  /** Under uniform growth any weights with a nonzero sum give the effects
      scale c, technology d / c and composition 1: each driver's change is the
      same in every sector, and the normalised weights sum to one. */
  lemma UniformWeightedEffects(m: LogModel, weights: seq<real>,
                               y: seq<real>, yb: seq<real>, i: seq<real>, ib: seq<real>, c: real, d: real)
    requires Lawful(m)
    requires Domain(y, yb, i, ib) && |y| > 0
    requires |weights| == |y| && Sum(weights) != 0.0
    requires c > 0.0 && d > 0.0
    requires forall k :: 0 <= k < |y| ==> y[k] == c * yb[k] && i[k] == d * ib[k]
    ensures WeightedEffects(m, weights, y, yb, i, ib) == Success(Effects(d, c, d / c, 1.0))
  {
    var normalised := Shares(weights);
    UniformScaleEffect(m, normalised, y, yb, c);
    UniformTechEffect(m, normalised, y, yb, i, ib, c, d);
    UniformCompEffect(m, normalised, y, yb, c);
    WeightedEffectsOf(m, weights, y, yb, i, ib, c, d / c, 1.0);
    CombineUniform(c, d);
  }

  /** Under uniform growth the three drivers multiply back to d. */
  lemma CombineUniform(c: real, d: real)
    requires c > 0.0
    ensures Combine(c, d / c, 1.0) == Effects(d, c, d / c, 1.0)
  {
    ScaleCancels(d, c);
  }

  /** The non-degenerate effects, given the value of each driver. */
  lemma WeightedEffectsOf(m: LogModel, weights: seq<real>,
                          y: seq<real>, yb: seq<real>, i: seq<real>, ib: seq<real>,
                          scale: real, tech: real, comp: real)
    requires Lawful(m)
    requires Domain(y, yb, i, ib)
    requires |weights| == |y| && Sum(weights) != 0.0
    requires DivisiaEffect(m, Shares(weights), SizeRatios(y, yb)) == Success(scale)
    requires DivisiaEffect(m, Shares(weights), IntensityChange(y, yb, i, ib)) == Success(tech)
    requires DivisiaEffect(m, Shares(weights), StructureChange(y, yb)) == Success(comp)
    ensures WeightedEffects(m, weights, y, yb, i, ib) == Success(Combine(scale, tech, comp))
  {
  }

  lemma UniformScaleEffect(m: LogModel, w: seq<real>, y: seq<real>, yb: seq<real>, c: real)
    requires Lawful(m)
    requires |yb| == |y| && |w| == |y| && Sum(w) == 1.0 && Sum(yb) != 0.0
    requires c > 0.0
    requires forall k :: 0 <= k < |y| ==> y[k] == c * yb[k]
    ensures DivisiaEffect(m, w, SizeRatios(y, yb)) == Success(c)
  {
    SizeRatioOfScaled(y, yb, c);
    UniformChange(m, w, SizeRatios(y, yb), c);
  }

  lemma UniformTechEffect(m: LogModel, w: seq<real>,
                          y: seq<real>, yb: seq<real>, i: seq<real>, ib: seq<real>, c: real, d: real)
    requires Lawful(m)
    requires Domain(y, yb, i, ib) && |w| == |y| && Sum(w) == 1.0
    requires c > 0.0 && d > 0.0
    requires forall k :: 0 <= k < |y| ==> y[k] == c * yb[k] && i[k] == d * ib[k]
    ensures DivisiaEffect(m, w, IntensityChange(y, yb, i, ib)) == Success(d / c)
  {
    UniformIntensityChange(y, yb, i, ib, c, d);
    UniformChange(m, w, IntensityChange(y, yb, i, ib), d / c);
  }

  lemma UniformCompEffect(m: LogModel, w: seq<real>, y: seq<real>, yb: seq<real>, c: real)
    requires Lawful(m)
    requires |yb| == |y| && |y| > 0 && |w| == |y| && Sum(w) == 1.0 && Sum(yb) != 0.0
    requires forall k :: 0 <= k < |yb| ==> yb[k] != 0.0
    requires c > 0.0
    requires forall k :: 0 <= k < |y| ==> y[k] == c * yb[k]
    ensures Sum(y) != 0.0
    ensures DivisiaEffect(m, w, StructureChange(y, yb)) == Success(1.0)
  {
    SharesScaleInvariant(yb, y, c);
    UnchangedStructure(y, yb);
    UniformChange(m, w, StructureChange(y, yb), 1.0);
  }

  /** When the target multiplies every base size by c and every base
      indicator by d, the structure is unchanged, every intensity changes by
      d / c, and the effects are total d, scale c, technology d / c and
      composition 1. */
  lemma UniformGrowth(m: LogModel, y: seq<real>, yb: seq<real>, i: seq<real>, ib: seq<real>, c: real, d: real)
    requires Lawful(m)
    requires Domain(y, yb, i, ib) && |y| > 0
    requires c > 0.0 && d > 0.0
    requires forall k :: 0 <= k < |y| ==> y[k] == c * yb[k] && i[k] == d * ib[k]
    ensures Indices(m, y, yb, i, ib) == Success(Effects(d, c, d / c, 1.0))
  {
    SharesScaleInvariant(ib, i, d);
    SameSharesWeights(m, i, ib);
    var omega := Shares(ib);
    assert Sum(omega) == 1.0;
    UniformWeightedEffects(m, omega, y, yb, i, ib, c, d);
  }

  /** One sector of `UniformGrowth`: (d i / c y) / (i / y) == d / c. */
  lemma IntensityRatio(y: real, yb: real, i: real, ib: real, c: real, d: real)
    requires yb != 0.0 && ib != 0.0 && c > 0.0 && d > 0.0
    requires y == c * yb && i == d * ib
    ensures (i / y) / (ib / yb) == d / c
  {
    var a, b := i / y, ib / yb;
    assert a * y == i;
    assert b * yb == ib;
    assert a * c * yb == d * ib;
    assert a * c * yb == d * b * yb;
    assert a * c == d * b;
  }

  /** Comparing a state with itself yields unity effects. */
  lemma SelfComparison(m: LogModel, y: seq<real>, i: seq<real>)
    requires Lawful(m)
    requires Domain(y, y, i, i) && |y| > 0
    ensures Indices(m, y, y, i, i) == Success(Unity)
  {
    UniformGrowth(m, y, y, i, i, 1.0, 1.0);
  }

  /** Two sectors whose sizes and indicators all grow by 20 percent: scale
      1.2, technology 1, composition 1, total 1.2. */
  lemma ProportionalGrowthExample(m: LogModel)
    requires Lawful(m)
    ensures Domain([1.2, 3.6], [1.0, 3.0], [2.4, 7.2], [2.0, 6.0])
    ensures Indices(m, [1.2, 3.6], [1.0, 3.0], [2.4, 7.2], [2.0, 6.0])
            == Success(Effects(1.2, 1.2, 1.0, 1.0))
  {
    var y, yb, i, ib := [1.2, 3.6], [1.0, 3.0], [2.4, 7.2], [2.0, 6.0];
    assert Sum(y) == 4.8 by { assert PrefixSum(y, 1) == 1.2; }
    assert Sum(yb) == 4.0 by { assert PrefixSum(yb, 1) == 1.0; }
    assert Sum(i) == 9.6 by { assert PrefixSum(i, 1) == 2.4; }
    assert Sum(ib) == 8.0 by { assert PrefixSum(ib, 1) == 2.0; }
    UniformGrowth(m, y, yb, i, ib, 1.2, 1.2);
  }

  /** With no sectors every effect is zero. */
  lemma NoSectors(m: LogModel)
    requires Lawful(m)
    ensures Indices(m, [], [], [], []) == Success(Zero)
  {
  }

  // ---------------------------------------------------------------------
  // Domain errors

  /** The shares of positive values are positive. */
  lemma SharesPositive(s: seq<real>)
    requires |s| > 0
    requires forall k :: 0 <= k < |s| ==> s[k] > 0.0
    ensures Sum(s) > 0.0
    ensures forall k :: 0 <= k < |s| ==> Shares(s)[k] > 0.0
  {
    SumPositive(s);
    forall k | 0 <= k < |s|
      ensures Shares(s)[k] > 0.0
    {
      QuotientSign(s[k], Sum(s));
    }
  }

  /** Positive indicators have defined log-mean weights. */
  lemma PositiveWeights(m: LogModel, i: seq<real>, ib: seq<real>)
    requires Lawful(m)
    requires |ib| == |i| && |i| > 0
    requires forall k :: 0 <= k < |i| ==> i[k] > 0.0 && ib[k] > 0.0
    ensures Sum(i) > 0.0 && Sum(ib) > 0.0
    ensures LogMeanWeights(m, i, ib).Success?
  {
    SharesPositive(i);
    SharesPositive(ib);
    WeightsAreLogMeans(m, i, ib);
  }

  /** Positive data change by positive factors in every sector. */
  lemma PositiveChanges(y: seq<real>, yb: seq<real>, i: seq<real>, ib: seq<real>)
    requires |yb| == |y| && |i| == |y| && |ib| == |y| && |y| > 0
    requires forall k :: 0 <= k < |y| ==> y[k] > 0.0 && yb[k] > 0.0 && i[k] > 0.0 && ib[k] > 0.0
    ensures Domain(y, yb, i, ib)
    ensures forall k :: 0 <= k < |y| ==> SizeRatios(y, yb)[k] > 0.0
    ensures forall k :: 0 <= k < |y| ==> IntensityChange(y, yb, i, ib)[k] > 0.0
    ensures forall k :: 0 <= k < |y| ==> StructureChange(y, yb)[k] > 0.0
  {
    SharesPositive(y);
    SharesPositive(yb);
    SumPositive(i);
    SumPositive(ib);
    QuotientSign(Sum(y), Sum(yb));
    forall k | 0 <= k < |y|
      ensures IntensityChange(y, yb, i, ib)[k] > 0.0
    {
      QuotientSign(i[k], y[k]);
      QuotientSign(ib[k], yb[k]);
      QuotientSign(i[k] / y[k], ib[k] / yb[k]);
    }
    forall k | 0 <= k < |y|
      ensures StructureChange(y, yb)[k] > 0.0
    {
      QuotientSign(Shares(y)[k], Shares(yb)[k]);
    }
  }

  /** With all sizes and indicators positive the engine never fails. */
  lemma PositiveDataSucceeds(m: LogModel, y: seq<real>, yb: seq<real>, i: seq<real>, ib: seq<real>)
    requires Lawful(m)
    requires |yb| == |y| && |i| == |y| && |ib| == |y|
    requires forall k :: 0 <= k < |y| ==> y[k] > 0.0 && yb[k] > 0.0 && i[k] > 0.0 && ib[k] > 0.0
    ensures Domain(y, yb, i, ib)
    ensures Indices(m, y, yb, i, ib).Success?
  {
    if |y| > 0 {
      PositiveChanges(y, yb, i, ib);
      PositiveWeights(m, i, ib);
      var weights := LogMeanWeights(m, i, ib).value;
      if Sum(weights) != 0.0 {
        var normalised := Shares(weights);
        assert DivisiaEffect(m, normalised, SizeRatios(y, yb)).Success?;
        assert DivisiaEffect(m, normalised, IntensityChange(y, yb, i, ib)).Success?;
        assert DivisiaEffect(m, normalised, StructureChange(y, yb)).Success?;
      }
    }
  }

  /** A non-positive target indicator, against positive base indicators and a
      positive target total, makes the logarithmic mean undefined: the engine
      fails. */
  lemma NonPositiveIndicatorFails(m: LogModel, y: seq<real>, yb: seq<real>, i: seq<real>, ib: seq<real>, k: nat)
    requires Lawful(m)
    requires Domain(y, yb, i, ib)
    requires forall j :: 0 <= j < |ib| ==> ib[j] > 0.0
    requires Sum(i) > 0.0
    requires k < |i| && i[k] <= 0.0
    ensures Indices(m, y, yb, i, ib) == Failure(DomainError)
  {
    SharesPositive(ib);
    QuotientSign(i[k], Sum(i));
    WeightsAreLogMeans(m, i, ib);
    assert LogMean(m, Shares(i)[k], Shares(ib)[k]).Failure?;
  }
}
