# Freshpoint sales forecaster, modelled in Dafny

The Freshpoint service takes a set of timestamped sales figures and returns a
reconstructed history followed by a short forecast. Its forecaster, `predictSales` in
`src/services/model.ts`, works in five steps:

1. It resolves two optional parameters. `ema_alpha` (default 0.3) is clamped to
   [0.01, 0.99]. `future_weeks` (default 10) is floored and raised to at least 1.
2. It sorts the samples by parsed timestamp, using a stable sort.
3. It smooths the values with an exponential moving average (`computeEMA`).
4. It fits a least-squares line against the positions 0..n-1 (`fitLinearTrend`).
5. It emits one rounded point per sample on that line. Then it emits `future_weeks` more
   points on the same line, dated one, two, ... weeks after the latest sample, at UTC
   midnight (`addIsoWeeks`). A single sample is repeated flat instead.

The model has one module per concern:

- `Samples`: the records, and `Math.round` on exact reals.
- `Params`: `getParameter`.
- `Dates`: `addIsoWeeks` on instants in milliseconds.
- `Ordering`: the stable sort by instant.
- `Smoothing`: `computeEMA`.
- `Trend`: `fitLinearTrend`.
- `Forecast`: `predictSales`.

Each loop of the source, and `addIsoWeeks`'s in-place update, is a method proved equal to a specification function:

- `ComputeEma` is proved equal to `Ema`.
- `FitLinearTrend` is proved equal to `LeastSquares`.
- `PredictSales` is proved equal to `Predict`. Its single-sample loop stays inside `PredictSales`; the general branch's two emission loops are the methods `FitHistory` and `ForecastWeeks`.
- `AddIsoWeeks` is proved equal to `WeekStep`.

The source's promises are proved about those functions. Among them:

- The sort is ascending, a permutation and stable.
- The smoothed series keeps the recurrence.
- The fit solves the least-squares normal equations. With two or more values it is the only line that does.
- Every output point lies on one line.
- Forecast dates step by whole weeks after the history.

Numbers are exact reals. Timestamps are a string together with the instant `Date.parse`
gives for it. Output timestamps are either an input string passed through, or the instant
that `toISOString` renders.

Rounding is `Math.round`: halves go toward positive infinity, so -2.5 rounds to -2. This is
not round-half-away-from-zero, which would give -3.

## Model

| member | source | states |
|---|---|---|
| Samples.Values | src/services/model.ts:63 | `sorted.map(d => d.value)`: one value per sample, in order |
| Samples.Round | src/services/model.ts:84 | `Math.round`: the result is the integer within one half of x, with a half rounding up |
| Params.ToNumber | src/services/model.ts:9 | a number is taken as it is, a string as what `Number` parses it to |
| Params.FindFirst | src/services/model.ts:7 | `find` by name: no result exactly when no entry has the name; otherwise the index of the first entry with it |
| Params.GetParameter | src/services/model.ts:5-11 | fallback when the list is absent or no entry has the name; otherwise the first such entry's value if it is a finite number, and the fallback if it is not |
| Params.OtherNamesSkipped | src/services/model.ts:7 | entries with other names do not change the lookup |
| Params.LaterEntriesIgnored | src/services/model.ts:7 | once an entry has the name, anything appended after it, a duplicate name included, is ignored |
| Dates.UtcMidnight | src/services/model.ts:16 | `setUTCHours(0, 0, 0, 0)`: a multiple of a day, not after the instant and less than a day before it |
| Dates.MidnightShift | src/services/model.ts:15-16 | moving by whole days and then truncating equals truncating and then moving |
| Dates.MidnightUnique | src/services/model.ts:16 | the midnight of an instant is the only day boundary within the day before it |
| Dates.WeekStep | src/services/model.ts:13-18 | the date `addIsoWeeks` returns: on a day boundary, and the UTC midnight of the instant `weeks` times seven days after the base, which is the same as moving the base's midnight |
| Dates.AddIsoWeeks | src/services/model.ts:13-18 | the instant is the UTC midnight of the base plus `weeks` times seven days, and it falls on a day boundary |
| Dates.WeekStepIncreases | src/services/model.ts:13-18 | for steps 1 <= j < k, both dates lie strictly after the base, the later one (k - j) times seven days after the earlier |
| Ordering.SortByInstant | src/services/model.ts:62 | the sorted copy has as many samples as the input |
| Ordering.SortIsSorted | src/services/model.ts:62 | the sorted copy is ascending by parsed instant |
| Ordering.SortIsPermutation | src/services/model.ts:62 | the sorted copy has exactly the input samples (equal multisets) |
| Ordering.SortIsStable | src/services/model.ts:62 | samples with equal instants keep their input order |
| Ordering.InsertSorted | src/services/model.ts:62 | inserting into an ascending sequence keeps it ascending |
| Ordering.InsertMultiset | src/services/model.ts:62 | inserting adds exactly the one sample |
| Ordering.InsertStable | src/services/model.ts:62 | insertion appends the sample to the end of its own instant's run and leaves every other run alone |
| Ordering.SameInstantAppend | src/services/model.ts:62 | the run of an instant in a concatenation is the concatenation of the runs |
| Ordering.SortedRunsDetermine | src/services/model.ts:62 | two ascending sequences with the same runs are equal |
| Ordering.SortIgnoresInputOrder | src/services/model.ts:62 | inputs with the same runs give the same sorted copy |
| Ordering.DistinctSameRuns | src/services/model.ts:62 | with distinct instants, any two orderings of the same samples have the same runs |
| Smoothing.Ema | src/services/model.ts:20-32 | the smoothed series has the input's length, and is empty for empty input |
| Smoothing.ComputeEma | src/services/model.ts:20-32 | the loop's result is the smoothed series |
| Smoothing.EmaPrefix | src/services/model.ts:25-30 | smoothing a prefix gives the prefix of the smoothed series |
| Smoothing.EmaFirst | src/services/model.ts:23-24 | the first average is the first value |
| Smoothing.EmaStep | src/services/model.ts:25-29 | every later average is alpha times the value plus 1 - alpha times the previous average |
| Smoothing.EmaConstant | src/services/model.ts:20-32 | a constant input smooths to itself |
| Smoothing.BlendBetween | src/services/model.ts:27 | with alpha in [0, 1], one smoothing step stays within any bounds of its two inputs |
| Smoothing.EmaBounded | src/services/model.ts:20-32 | with alpha in [0, 1], the smoothed series stays within any bounds the input keeps |
| Trend.LeastSquares | src/services/model.ts:34-53 | the fit in closed form: (0, 0) for no values, (y0, 0) for one value, and for any non-empty input a line through the centroid (xMean, yMean) |
| Trend.FitLinearTrend | src/services/model.ts:34-53 | the loop computes the closed-form fit; no values give (0, 0) and one value y0 gives (y0, 0) |
| Trend.IndexSumClosed | src/services/model.ts:39 | the positions 0..k-1 sum to k(k-1)/2 |
| Trend.CrossDeviationExpand | src/services/model.ts:44-46 | the accumulated `num` equals the power-sum expansion sum(xy) - xMean sum(y) - yMean sum(x) + k xMean yMean |
| Trend.SquareDeviationExpand | src/services/model.ts:44-47 | the accumulated `den` equals sum(x^2) - 2 xMean sum(x) + k xMean^2 |
| Trend.SquareDeviationAtLeastFirst | src/services/model.ts:47 | `den` is at least the first position's contribution xMean^2 |
| Trend.DenominatorPositive | src/services/model.ts:49 | with two or more values `den` is positive, so the `den === 0` branch cannot be taken |
| Trend.IndexSumIsCount | src/services/model.ts:39 | the positions sum to n times xMean |
| Trend.PrefixSumIsCount | src/services/model.ts:40 | the values sum to n times yMean |
| Trend.CrossDeviationTotal | src/services/model.ts:40-48 | over all n positions `num` is sum(xy) - n xMean yMean |
| Trend.SquareDeviationTotal | src/services/model.ts:39-48 | over all n positions `den` is sum(x^2) - n xMean^2 |
| Trend.LeastSquaresSlope | src/services/model.ts:49-51 | with two or more values, b times `den` is `num`, and a = yMean - b xMean |
| Trend.FitSolvesNormalEquations | src/services/model.ts:34-53 | the fitted line solves both least-squares normal equations, for every length |
| Trend.NormalEquationsUnique | src/services/model.ts:34-53 | with two or more values, at most one line solves the normal equations, so the fit is the least-squares line |
| Trend.LineIsNormal | src/services/model.ts:34-53 | a line through every value solves the normal equations |
| Trend.FitExactOnLine | src/services/model.ts:34-53 | two or more values already on a line are fitted by exactly that line |
| Trend.FitConstant | src/services/model.ts:34-53 | a non-empty constant series is fitted with slope 0 at that constant |
| Forecast.Alpha | src/services/model.ts:56-57 | alpha lies in [0.01, 0.99]; it is the resolved value inside that range, and the nearer bound outside it |
| Forecast.FutureWeeks | src/services/model.ts:58 | future is at least 1; it is the floor of the resolved value when that is at least 1, and 1 otherwise |
| Forecast.DefaultsWithoutParameters | src/services/model.ts:56-58 | without parameters, alpha is 0.3 and ten weeks are forecast |
| Forecast.TrendOf | src/services/model.ts:65-77 | the line fitted to the smoothed sorted values; for one sample it is flat at that sample's value, which makes the single-sample branch agree with the general one |
| Forecast.Fitted | src/services/model.ts:79-86 | one point per sorted sample, carrying its timestamp text and the rounded line value at its position |
| Forecast.Projected | src/services/model.ts:88-97 | `future` points; point k is dated k + 1 weeks after the latest sample's midnight and has the rounded line value at position n + k |
| Forecast.Points | src/services/model.ts:79-99 | the emitted series has one point per sample plus one per forecast week |
| Forecast.Predict | src/services/model.ts:55-100 | the result is empty for no samples; otherwise it has n + future points |
| Forecast.PredictSales | src/services/model.ts:55-100 | both branches, the single-sample loop and the fitted and forecast loops, return the specified prediction |
| Forecast.FitHistory | src/services/model.ts:79-86 | the `fitted` loop emits each sorted sample's timestamp with the rounded line value at its position |
| Forecast.ForecastWeeks | src/services/model.ts:88-97 | the `forecast` loop emits, for i = 1..future, the date i weeks on with the rounded line value at n - 1 + i |
| Forecast.PointsOnLine | src/services/model.ts:79-97 | every point, historical or forecast, has the rounded value of the same line at its position |
| Forecast.PointsDates | src/services/model.ts:79-97 | historical points keep the sorted timestamp texts; forecast point j is dated j - n + 1 weeks after the latest sample's midnight |
| Forecast.PredictEmpty | src/services/model.ts:60 | the prediction is empty exactly when there are no samples |
| Forecast.LatestIsLast | src/services/model.ts:88 | the last sorted sample is an input sample no earlier than any other |
| Forecast.PredictHistory | src/services/model.ts:62-86 | the history is ascending, a permutation of the input, and carries each sorted sample's own timestamp text |
| Forecast.PredictForecastDates | src/services/model.ts:88-97 | forecast point k is dated k + 1 weeks after the UTC midnight of the latest sample |
| Forecast.ForecastPointDate | src/services/model.ts:90-94 | the same for the emitted series of any line |
| Forecast.ForecastAfterHistory | src/services/model.ts:88-97 | every forecast date lies strictly after every sample's instant, and consecutive forecast dates are seven days apart |
| Forecast.PredictOnTrend | src/services/model.ts:77-97 | every output value is the rounded value, at its position, of the line fitted to the smoothed sorted values |
| Forecast.PredictSingle | src/services/model.ts:65-73 | a single sample gives round(v) at every point |
| Forecast.SortedValuesFromInput | src/services/model.ts:62-63 | every sorted value is one of the input values |
| Forecast.ConstantTrend | src/services/model.ts:75-77 | a non-empty history of equal values gives the flat trend at that value |
| Forecast.PredictConstant | src/services/model.ts:55-100 | equal values give round(c) at every point |
| Forecast.PredictIgnoresInputOrder | src/services/model.ts:62 | inputs with the same runs of equal instants give the same prediction |
| Forecast.PredictAnyOrder | src/services/model.ts:62 | samples with distinct instants give the same prediction in any arrival order |

## Left out

- The HTTP layer is outside the model: the Express server, the request shape check, the last-result cache and its wall-clock stamp, and the 404/500 responses (`src/server.ts`, `src/routes/predict.ts`, `src/routes/prediction.ts`). It is I/O and plumbing around the forecaster.
- Floating point: values are exact reals, so IEEE-754 rounding of the sums, the EMA and the division is not modelled. For example, a line value `a + b*i` within rounding error of a .5 tie can round the other way in doubles.
- `Date.parse`, `toISOString`, `Number(string)` and `Number.isFinite` are library calls. Each sample carries its parsed instant. A string parameter carries its parsed number, which may be finite or not. An output timestamp is the instant `toISOString` would render.
- Unparseable timestamps are not modelled. Their key would be NaN, which makes the sort comparator inconsistent, so the order is unspecified.
- `toISOString` throws a RangeError for instants outside its range. That is not modelled.
- The `!Array.isArray(data)` guard is not modelled: the model's input is always a sequence.
- The library's sort algorithm is not modelled. It is replaced by a stable insertion sort. The model relies only on its contract (ascending, a permutation, stable), and that contract determines the result (Ordering.SortedRunsDetermine).
