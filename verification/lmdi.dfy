/** The Log-Mean Divisia Index engine: given per-sector size and indicator
    values of a target state and of the base state, it splits the change of
    the aggregate indicator into a scale, a technology and a composition
    effect whose product is the total effect. */
module Lmdi {
  import opened Results
  import opened Logarithm
  import opened RealSeq

  /** The value whose logarithm stands in for ln 0 in `ModifiedLog`. */
  const ZeroSubstitute: real := 0.0001

  /** The four multiplicative effects of one state against the base. */
  datatype Effects = Effects(total: real, scale: real, tech: real, comp: real) {
    /** The multiplicative identity total = scale * technology * composition. */
    predicate IsProduct() {
      total == scale * tech * comp
    }
  }

  const Zero := Effects(0.0, 0.0, 0.0, 0.0)
  const Unity := Effects(1.0, 1.0, 1.0, 1.0)

  /** Builds an `Effects` whose total is the product of the three drivers. */
  function Combine(scale: real, tech: real, comp: real): Effects
  {
    Effects(scale * tech * comp, scale, tech, comp)
  }

  /** Proof step: stated once here so that callers need not unfold the
      product. */
  lemma CombineIsProduct(scale: real, tech: real, comp: real)
    ensures Combine(scale, tech, comp).IsProduct()
  {
  }

  // ---------------------------------------------------------------------
  // Scalar building blocks

  /** The logarithmic mean of two values; equal values are their own mean,
      otherwise both must be positive. */
  function LogMean(m: LogModel, x: real, y: real): (r: Result<real>)
    requires Lawful(m)
    ensures r.Failure? <==> x != y && (x <= 0.0 || y <= 0.0)
    ensures r.Failure? ==> r.error == DomainError
    ensures x == y ==> r == Success(x)
    ensures r.Success? && x != y ==> r.value * (m.ln(y) - m.ln(x)) == y - x
  {
    if x == y then Success(x)
    else if x <= 0.0 || y <= 0.0 then Failure(DomainError)
    else
      LnInjective(m, x, y);
      Success((y - x) / (m.ln(y) - m.ln(x)))
  }

  /** The logarithm with ln 0 replaced by ln 0.0001; negative arguments are
      out of the domain. */
  function ModifiedLog(m: LogModel, v: real): (r: Result<real>)
    requires Lawful(m)
    ensures r.Failure? <==> v < 0.0
    ensures r.Failure? ==> r.error == DomainError
    ensures r.Success? && v > 0.0 ==> m.exp(r.value) == v
    ensures r.Success? && v == 0.0 ==> m.exp(r.value) == ZeroSubstitute
  {
    if v == 0.0 then Success(m.ln(v + ZeroSubstitute))
    else if v < 0.0 then Failure(DomainError)
    else Success(m.ln(v))
  }

  // ---------------------------------------------------------------------
  // Sector-wise sequences

  /** Sector-wise quotients a[k] / b[k]. */
  function Ratios(a: seq<real>, b: seq<real>): (r: seq<real>)
    requires |a| == |b|
    requires forall k :: 0 <= k < |b| ==> b[k] != 0.0
    ensures |r| == |a|
    ensures forall k :: 0 <= k < |r| ==> r[k] * b[k] == a[k]
  {
    seq(|a|, k requires 0 <= k < |a| => a[k] / b[k])
  }

  /** Each sector's share of the total; the shares add up to one. */
  function Shares(s: seq<real>): (r: seq<real>)
    requires |s| == 0 || Sum(s) != 0.0
    ensures |r| == |s|
    ensures forall k :: 0 <= k < |r| ==> r[k] * Sum(s) == s[k]
    ensures |s| > 0 ==> Sum(r) == 1.0
  {
    var shares := seq(|s|, k requires 0 <= k < |s| => s[k] / Sum(s));
    if |s| == 0 then shares
    else
      SumScale(s, shares, 1.0 / Sum(s));
      shares
  }

  /** The modified logarithm of every sector value, all-or-nothing. */
  function ModifiedLogs(m: LogModel, s: seq<real>): (r: Result<seq<real>>)
    requires Lawful(m)
    ensures r.Success? <==> forall k :: 0 <= k < |s| ==> s[k] >= 0.0
    ensures r.Success? ==> |r.value| == |s|
    ensures r.Success? ==> forall k :: 0 <= k < |s| ==> r.value[k] == ModifiedLog(m, s[k]).value
    ensures r.Success? ==> forall k :: 0 <= k < |s| && s[k] > 0.0 ==> m.exp(r.value[k]) == s[k]
  {
    var rs := seq(|s|, k requires 0 <= k < |s| => ModifiedLog(m, s[k]));
    var r := Collect(rs);
    assert forall k :: 0 <= k < |s| ==> (rs[k].Success? <==> s[k] >= 0.0);
    r
  }

  /** sum_{k < n} w[k] * logs[k]. */
  function WeightedPrefix(w: seq<real>, logs: seq<real>, n: nat): real
    requires |w| == |logs| && n <= |w|
  {
    if n == 0 then 0.0 else WeightedPrefix(w, logs, n - 1) + w[n - 1] * logs[n - 1]
  }

  /** sum_k w[k] * logs[k], the exponent of every effect. */
  function WeightedLogSum(w: seq<real>, logs: seq<real>): real
    requires |w| == |logs|
  {
    WeightedPrefix(w, logs, |w|)
  }

  // ---------------------------------------------------------------------
  // The engine

  /** What the engine needs so that no division is by zero: equal lengths,
      nonzero sizes and base indicators, and nonzero totals. */
  ghost predicate Domain(y: seq<real>, yb: seq<real>, i: seq<real>, ib: seq<real>) {
    && |yb| == |y| && |i| == |y| && |ib| == |y|
    && (forall k :: 0 <= k < |y| ==> y[k] != 0.0 && yb[k] != 0.0 && ib[k] != 0.0)
    && (|y| > 0 ==> Sum(y) != 0.0 && Sum(yb) != 0.0 && Sum(i) != 0.0 && Sum(ib) != 0.0)
  }

  /** Change of each sector's intensity (indicator per size). */
  function IntensityChange(y: seq<real>, yb: seq<real>, i: seq<real>, ib: seq<real>): (r: seq<real>)
    requires Domain(y, yb, i, ib)
    ensures |r| == |y|
    ensures forall k :: 0 <= k < |r| ==> r[k] * (ib[k] / yb[k]) == i[k] / y[k]
  {
    Ratios(Ratios(i, y), Ratios(ib, yb))
  }

  /** The ratio of total sizes, repeated once per sector. */
  function SizeRatios(y: seq<real>, yb: seq<real>): (r: seq<real>)
    requires |yb| == |y|
    requires |y| == 0 || Sum(yb) != 0.0
    ensures |r| == |y|
    ensures forall k :: 0 <= k < |r| ==> r[k] * Sum(yb) == Sum(y)
  {
    seq(|y|, k requires 0 <= k < |y| => Sum(y) / Sum(yb))
  }

  /** Change of each sector's share of total size. */
  function StructureChange(y: seq<real>, yb: seq<real>): (r: seq<real>)
    requires |yb| == |y|
    requires forall k :: 0 <= k < |yb| ==> yb[k] != 0.0
    requires |y| == 0 || (Sum(y) != 0.0 && Sum(yb) != 0.0)
    ensures |r| == |y|
    ensures forall k :: 0 <= k < |r| ==> r[k] * Shares(yb)[k] == Shares(y)[k]
  {
    Ratios(Shares(y), Shares(yb))
  }

  /** The log-mean weights L_k of the indicator shares of target and base,
      all-or-nothing; `WeightsAreLogMeans` states what they are. */
  function LogMeanWeights(m: LogModel, i: seq<real>, ib: seq<real>): (r: Result<seq<real>>)
    requires Lawful(m)
    requires |ib| == |i|
    requires |i| == 0 || (Sum(i) != 0.0 && Sum(ib) != 0.0)
    ensures r.Success? ==> |r.value| == |i|
    ensures r.Failure? ==> r.error == DomainError
  {
    var omega, omegaBase := Shares(i), Shares(ib);
    Collect(seq(|i|, k requires 0 <= k < |i| => LogMean(m, omega[k], omegaBase[k])))
  }

  /** The weights exist exactly when every sector's pair of indicator shares
      has a logarithmic mean, and then they are those means. */
  lemma WeightsAreLogMeans(m: LogModel, i: seq<real>, ib: seq<real>)
    requires Lawful(m)
    requires |ib| == |i|
    requires |i| == 0 || (Sum(i) != 0.0 && Sum(ib) != 0.0)
    ensures LogMeanWeights(m, i, ib).Success? <==>
      forall k :: 0 <= k < |i| ==> LogMean(m, Shares(i)[k], Shares(ib)[k]).Success?
    ensures LogMeanWeights(m, i, ib).Success? ==>
      forall k :: 0 <= k < |i| ==>
        LogMean(m, Shares(i)[k], Shares(ib)[k]) == Success(LogMeanWeights(m, i, ib).value[k])
  {
    var omega, omegaBase := Shares(i), Shares(ib);
    var rs := seq(|i|, k requires 0 <= k < |i| => LogMean(m, omega[k], omegaBase[k]));
    assert LogMeanWeights(m, i, ib) == Collect(rs);
    assert forall k :: 0 <= k < |i| ==> rs[k] == LogMean(m, Shares(i)[k], Shares(ib)[k]);
  }

  /** One Divisia effect: exp of the weighted sum of the modified logarithms
      of the sector changes. Scale, technology and composition differ only in
      the changes they aggregate. */
  function DivisiaEffect(m: LogModel, w: seq<real>, changes: seq<real>): (r: Result<real>)
    requires Lawful(m)
    requires |changes| == |w|
    ensures r.Success? <==> forall k :: 0 <= k < |changes| ==> changes[k] >= 0.0
    ensures r.Failure? ==> r.error == DomainError
  {
    var logs :- ModifiedLogs(m, changes);
    Success(m.exp(WeightedLogSum(w, logs)))
  }

  /** The effects when the log-mean weights do not sum to zero, the weights
      normalised to sum to one. The scale change is the same ratio of total
      sizes in every sector. */
  function WeightedEffects(m: LogModel, weights: seq<real>,
                           y: seq<real>, yb: seq<real>, i: seq<real>, ib: seq<real>): (r: Result<Effects>)
    requires Lawful(m)
    requires Domain(y, yb, i, ib)
    requires |weights| == |y| && Sum(weights) != 0.0
    ensures r.Success? ==> r.value.IsProduct()
    ensures r.Failure? ==> r.error == DomainError
  {
    var normalised := Shares(weights);
    var scale :- DivisiaEffect(m, normalised, SizeRatios(y, yb));
    var tech :- DivisiaEffect(m, normalised, IntensityChange(y, yb, i, ib));
    var comp :- DivisiaEffect(m, normalised, StructureChange(y, yb));
    CombineIsProduct(scale, tech, comp);
    Success(Combine(scale, tech, comp))
  }

  /** The LMDI effects of the target state (y, i) against the base state
      (yb, ib). When the log-mean weights sum to zero all effects are zero. */
  function Indices(m: LogModel, y: seq<real>, yb: seq<real>, i: seq<real>, ib: seq<real>): (r: Result<Effects>)
    requires Lawful(m)
    requires Domain(y, yb, i, ib)
    ensures r.Success? ==> r.value.IsProduct()
    ensures r.Failure? ==> r.error == DomainError
  {
    var weights :- LogMeanWeights(m, i, ib);
    if Sum(weights) == 0.0 then Success(Zero)
    else WeightedEffects(m, weights, y, yb, i, ib)
  }
}
