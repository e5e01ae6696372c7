# LMDI index decomposition in Dafny

This project models the Log-Mean Divisia Index (LMDI) core of
`IndexDecomposition.py`. The program takes, for several states (years,
regions), a table of sector sizes (for example output) and a table of sector
indicators (for example energy use). It compares every state with the first,
the base, and splits the change of the aggregate indicator into three
multiplicative effects:

- a **scale** effect, from the change of total size;
- a **technology** effect, from the change of each sector's intensity, that is
  its indicator per size;
- a **composition** effect, from the change of each sector's share of total size.

Their product is the **total** effect.

The model has these modules:

- `Results` (`results.dfy`): the `Result` type, whose failures stand in for
  the exceptions the code raises. `Collect` evaluates a list comprehension
  all-or-nothing.
- `Logarithm` (`logarithm.dfy`): `ln` and `exp` supplied by the caller as a
  `LogModel`.
  - `Lawful` holds the laws the engine itself needs: ln 1 = 0, and exp undoes
    ln on the positive reals.
  - `Multiplicative` adds the laws of the true logarithm: products become
    sums, every real is a logarithm, and ln is increasing.
  - Every result holds for every model that obeys the stated laws.
- `RealSeq` (`real_seq.dfy`): sums of real sequences and the few
  arithmetic facts the proofs use.
- `Lmdi` (`lmdi.dfy`): `_logMean`, `_modifiedLog` and `_get_lmdi_indices`.
  Each step of the code is one function:
  - ratios, shares and log-mean weights;
  - one Divisia effect per driver;
  - the degenerate branch for weights that sum to zero.
- `LmdiProperties` (`lmdi_properties.dfy`): properties of the engine.
  - The logarithmic mean is symmetric.
  - The degenerate branch gives zeros.
  - The scale effect is the ratio of total sizes.
  - Uniform growth is attributed to scale and intensity alone.
  - A state compared with itself gives unity effects.
  - Positive data never fail. A non-positive target indicator does fail,
    when the base indicators and the target total are positive.
- `Exactness` (`exactness.dfy`): for positive data the decomposition is
  exact. The product of the three effects equals the ratio of total
  indicators. The proof rests on two identities:
  - the three sector log-changes add up to the log-change of total
    indicator plus the sector's log-change of indicator share;
  - the log-mean weights cancel the share terms.
- `Decomposition` (`decomposition.dfy`): the class.
  - The constructor admits only the LMDI method.
  - `get_results` produces one row per state, in column order, against the
    first state.

Two points about the code's behaviour:

- **A worked example.** Take the docstring's two sectors, with sizes 1 and 3
  growing to 1.2 and 3.3. Add indicators 2 and 6 growing to 2.4 and 6.6, so
  that every sector's intensity stays 2. The sizes do not grow
  proportionally: total size goes from 4 to 4.5, and total indicator from 8
  to 9. The engine yields total 1.125, scale 1.125, technology 1 and
  composition 1 (`Exactness.UnchangedIntensityExample`). Data that grows by
  20 percent everywhere gives 1.2, 1.2, 1, 1
  (`LmdiProperties.ProportionalGrowthExample`).
- **Domain errors.** The `except` branches of `_logMean` and `_modifiedLog`
  raise a `ZeroDivisionError` for zero or negative data. But numpy's
  `np.log` does not raise: it returns `-inf` for zero and `nan` for a negative
  number. For example, `_logMean(0, y)` with y > 0 evaluates to 0. The model
  follows the stated intent of the `except` branches: a non-positive argument
  of the logarithmic mean of two distinct values, and a negative argument of
  the modified logarithm, give `Failure(DomainError)`.

## Model

| member | source | states |
|---|---|---|
| Results.Collect | IndexDecomposition.py:112 | A comprehension over fallible elements succeeds exactly when every element does, keeping every value in order; otherwise it fails with the error of the first failing element |
| Logarithm.LnInjective | IndexDecomposition.py:83 | For distinct positive x and y the denominator ln y - ln x of the logarithmic mean is never zero |
| Lmdi.LogMean | IndexDecomposition.py:78-85 | Equal arguments are their own mean. Distinct arguments fail with a domain error exactly when one is not positive. Otherwise the mean times (ln y - ln x) is y - x |
| LmdiProperties.LogMeanSymmetric | IndexDecomposition.py:78-85 | logMean(x, y) == logMean(y, x) for all inputs, failures included |
| Exactness.LogMeanPositive | IndexDecomposition.py:78-85 | For positive arguments the logarithmic mean exists and is positive |
| Exactness.LogMeanGap | IndexDecomposition.py:83 | The logarithmic mean times the gap of the logarithms is the gap of the arguments, for equal arguments too |
| Lmdi.ModifiedLog | IndexDecomposition.py:89-96 | Fails exactly for negative numbers. For positive v the result is a logarithm of v (exp gives v back). For 0 it is a logarithm of 0.0001 (exp gives 0.0001 back) |
| Lmdi.Ratios | IndexDecomposition.py:102-104 | Sector-wise quotients: each result times the divisor gives the dividend |
| Lmdi.Shares | IndexDecomposition.py:106-111 | Each share times the total is the sector value, and the shares of a non-empty sequence sum to one |
| Lmdi.IntensityChange | IndexDecomposition.py:102-104 | One change per sector: the change times the base intensity ib[k] / yb[k] is the target intensity i[k] / y[k] |
| Lmdi.SizeRatios | IndexDecomposition.py:120 | Every sector carries the ratio of total sizes: it times the base total is the target total |
| Lmdi.StructureChange | IndexDecomposition.py:106-108 | One change per sector: the change times the base size share is the target size share |
| Lmdi.LogMeanWeights | IndexDecomposition.py:110-112 | One weight per sector when it succeeds; a failure is a domain error |
| Lmdi.WeightsAreLogMeans | IndexDecomposition.py:110-112 | The weights exist exactly when every sector's pair of indicator shares has a logarithmic mean, and weight k is that mean |
| Lmdi.ModifiedLogs | IndexDecomposition.py:120-122 | The modified logarithms of all sector changes succeed exactly when no change is negative, and then each is the sector's modified logarithm |
| Lmdi.DivisiaEffect | IndexDecomposition.py:120-122 | One effect succeeds exactly when no sector change is negative; otherwise it is a domain error |
| Lmdi.WeightedEffects | IndexDecomposition.py:119-124 | In the non-degenerate branch the effects satisfy total = scale * technology * composition, and errors are domain errors |
| Lmdi.Indices | IndexDecomposition.py:100-126 | On every successful path, the degenerate branch included, total = scale * technology * composition (line 124). Every failure is a domain error |
| LmdiProperties.DegenerateBranch | IndexDecomposition.py:115-118 | When the log-mean weights sum to zero, all four effects are zero and no error is raised |
| LmdiProperties.UniformChange | IndexDecomposition.py:120-122 | A Divisia effect with normalised weights over the same positive change v in every sector is v |
| LmdiProperties.WeightedScaleIsSizeRatio | IndexDecomposition.py:120 | In the non-degenerate branch a successful scale effect is the ratio of total sizes |
| LmdiProperties.ScaleEffectIsSizeRatio | IndexDecomposition.py:113-120 | On success the scale effect is zero in the degenerate branch and otherwise the nonzero ratio of total sizes |
| LmdiProperties.SharesScaleInvariant | IndexDecomposition.py:106-111 | Multiplying every sector by a nonzero factor multiplies the total by it and leaves the shares unchanged |
| LmdiProperties.SizeRatioOfScaled | IndexDecomposition.py:120 | Sizes that are c times the base sizes have total-size ratio c |
| LmdiProperties.SameSharesWeights | IndexDecomposition.py:110-112 | When the target and base indicator shares coincide, the log-mean weights are those shares |
| LmdiProperties.UniformIntensityChange | IndexDecomposition.py:102-104 | Sizes scaled by c and indicators by d change every intensity by d / c |
| LmdiProperties.UnchangedStructure | IndexDecomposition.py:106-108 | Unchanged size shares give a structure change of 1 in every sector |
| LmdiProperties.UniformWeightedEffects | IndexDecomposition.py:119-124 | Under uniform growth, any weights with a nonzero sum give total d, scale c, technology d / c and composition 1 |
| LmdiProperties.WeightedEffectsOf | IndexDecomposition.py:119-124 | Proof step, not a separate property of the program: it unfolds the non-degenerate branch into the three Divisia effects combined, total being their product |
| LmdiProperties.UniformScaleEffect | IndexDecomposition.py:120 | Sizes scaled by c give scale effect c under weights summing to one |
| LmdiProperties.UniformTechEffect | IndexDecomposition.py:121 | Sizes scaled by c and indicators by d give technology effect d / c under weights summing to one |
| LmdiProperties.UniformCompEffect | IndexDecomposition.py:122 | Sizes scaled uniformly give composition effect 1 under weights summing to one |
| LmdiProperties.UniformGrowth | IndexDecomposition.py:100-126 | Sizes scaled by c and indicators by d give exactly total d, scale c, technology d / c and composition 1 |
| LmdiProperties.SelfComparison | IndexDecomposition.py:100-126 | A non-empty state compared with itself gives effects 1, 1, 1, 1 |
| LmdiProperties.ProportionalGrowthExample | IndexDecomposition.py:100-126 | Two sectors whose sizes and indicators all grow by 20 percent give total 1.2, scale 1.2, technology 1 and composition 1 |
| LmdiProperties.NoSectors | IndexDecomposition.py:100-126 | With no sectors the weights sum to zero, so every effect is zero |
| LmdiProperties.SharesPositive | IndexDecomposition.py:106-111 | Positive values have a positive total and positive shares |
| LmdiProperties.PositiveWeights | IndexDecomposition.py:110-112 | Positive indicators have defined log-mean weights |
| LmdiProperties.PositiveChanges | IndexDecomposition.py:102-108 | Positive data lie in the domain, and every size ratio, intensity change and structure change is positive |
| LmdiProperties.PositiveDataSucceeds | IndexDecomposition.py:100-126 | With all sizes and indicators positive the engine never fails |
| LmdiProperties.NonPositiveIndicatorFails | IndexDecomposition.py:110-112 | A zero or negative target indicator, with positive base indicators and a positive target total, makes a logarithmic mean undefined, so the engine fails with a domain error |
| Exactness.SectorLogs | IndexDecomposition.py:102-108 | In one sector, ln(size ratio) + ln(intensity change) + ln(structure change) = ln(total indicator ratio) + the log-change of the sector's indicator share |
| Exactness.GapsCancel | IndexDecomposition.py:110-113 | Normalised log-mean weights times the log-changes of indicator shares sum to zero |
| Exactness.EngineGaps | IndexDecomposition.py:110-112 | Each log-mean weight times the sector's log-change of indicator share is the change of that share |
| Exactness.PositiveWeightSum | IndexDecomposition.py:110-113 | Positive indicators give weights with a positive sum, so the degenerate branch is never taken |
| Exactness.PositiveDivisia | IndexDecomposition.py:120-122 | For positive changes a Divisia effect is exp of the weighted sum of the plain logarithms |
| Exactness.ExponentSum | IndexDecomposition.py:119-122 | For positive data the three weighted exponents add up to ln(total indicator ratio) |
| Exactness.ExactDecomposition | IndexDecomposition.py:100-126 | For positive data the engine succeeds, and its total effect, the product of the three drivers, equals the ratio of total indicators |
| Exactness.UnitIntensityChanges | IndexDecomposition.py:102-104 | A sector whose indicator per size is the same in both states has intensity change 1 |
| Exactness.UnitTechnologyEffect | IndexDecomposition.py:121 | Intensity changes of 1 everywhere give a technology effect of 1 |
| Exactness.ConstantIntensities | IndexDecomposition.py:100-126 | With positive data and unchanged intensities: total is the ratio of total indicators, scale the ratio of total sizes, technology 1 |
| Exactness.UnchangedIntensityExample | IndexDecomposition.py:100-126 | Sizes 1, 3 growing to 1.2, 3.3 and indicators 2, 6 growing to 2.4, 6.6 give total 1.125, scale 1.125, technology 1, composition 1 |
| Decomposition.New | IndexDecomposition.py:71-74 | Construction succeeds exactly for the method name "LMDI" and keeps the tables as given; any other name fails, carrying that name |
| Decomposition.DefaultConstruction | IndexDecomposition.py:58 | The method name defaults to "LMDI", so omitting it yields a decomposer over the given tables |
| Decomposition.FirstFailureOf | IndexDecomposition.py:138-148 | Proof step, not a separate property of the program: the first failing per-state result is the first failing state of the decomposer, and its error is a domain error |
| Decomposition.CollectRows | IndexDecomposition.py:138-148 | The rows pair each state with its result, in order, when every state succeeds; otherwise the first failure is reported |
| Decomposition.GetResults | IndexDecomposition.py:129-153 | One row per state in column order, each holding the engine's effects for that state against the first. The call succeeds exactly when every state does. A failure is the domain error of the first failing state |
| Decomposition.BaseRow | IndexDecomposition.py:138-143 | The first row compares the base with itself: unity effects, or zeros when there are no sectors |

## Left out

- Table plumbing: pandas data frames, the `id_column` drop and the `TypeError` for non-frame input. A decomposer holds the state labels and one column of sizes and one column of indicators per state, aligned by position.
- Column lookup by label: `get_results` reads indicator columns by the size table's labels. The model assumes both tables have the same columns in the same order (`Computable`); a missing label (a pandas `KeyError`) is not modelled.
- The `print("Not yet implemented.")` branch of `get_results`: the constructor admits only "LMDI", so the branch cannot be reached.
- The commented-out CSV example at the end of the file: it is file I/O.
- `np.log` and `np.exp`: these are parameters (`LogModel`) obeying stated laws, because Dafny's reals have no transcendental functions. Floating-point rounding is not modelled; all arithmetic is exact real arithmetic.
- Division by zero in the sector quotients: lines 102-104 divide plain Python floats taken from the columns. A zero target size, zero base size or zero base indicator makes the program raise an uncaught `ZeroDivisionError`. The model does not return a `Failure` for these inputs; the preconditions `Domain` and `Computable` exclude them.
- Zero totals: the totals at lines 106-111 and 120 are numpy floats, and dividing by a zero total gives `inf` or `nan` rather than an error. `Domain` excludes zero totals, because IEEE `inf` and `nan` are not modelled.
- Zero or negative target indicators and negative changes are modelled, as domain errors (see "Domain errors" above).
- Lmdi.DivisiaEffect: its contract states when the effect exists but not its value. The value is stated only for positive changes (`Exactness.PositiveDivisia`) and for a uniform change (`LmdiProperties.UniformChange`). The effect of a zero change, through the ln 0.0001 substitute of `ModifiedLog`, is not stated, and `Indices` cannot reach it. A zero target indicator already fails in `LogMean`, and `Domain` excludes zero sizes and zero size totals. The program instead gives such a sector a zero weight (numpy's logMean(0, y) = 0) and a finite contribution through the `_modifiedLog(0)` fallback.
- Lmdi.LogMeanWeights: its own contract states only the length and the error kind; the exact weights are stated by `Lmdi.WeightsAreLogMeans`.
- Decomposition.GetResults: the rows' `total = scale * technology * composition` is not repeated in its contract; it follows from each row being the result of `Lmdi.Indices`, whose contract states it.
