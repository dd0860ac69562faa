/** The forecaster (`predictSales`): smooth the history, fit a straight line to the smoothed
    series and continue it one point per week. */
module Forecast {
  import opened Samples
  import opened Params
  import opened Dates
  import opened Ordering
  import opened Smoothing
  import opened Trend

  const AlphaName: string := "ema_alpha"
  const FutureWeeksName: string := "future_weeks"
  const DefaultAlpha: real := 0.3
  const MinAlpha: real := 0.01
  const MaxAlpha: real := 0.99
  const DefaultFutureWeeks: real := 10.0

  /** The smoothing weight: the `ema_alpha` parameter (0.3 by default) clamped to
      [0.01, 0.99] by `Math.max(0.01, Math.min(0.99, rawAlpha))`. */
  function Alpha(params: Option<seq<Parameter>>): (alpha: real)
    ensures MinAlpha <= alpha <= MaxAlpha
    ensures var raw := GetParameter(params, AlphaName, DefaultAlpha);
      && (MinAlpha <= raw <= MaxAlpha ==> alpha == raw)
      && (raw < MinAlpha ==> alpha == MinAlpha)
      && (raw > MaxAlpha ==> alpha == MaxAlpha)
  {
    var raw := GetParameter(params, AlphaName, DefaultAlpha);
    var upper := if raw < MaxAlpha then raw else MaxAlpha;
    if MinAlpha < upper then upper else MinAlpha
  }

  /** The number of forecast weeks: `Math.max(1, Math.floor(future_weeks))`, 10 by default. */
  function FutureWeeks(params: Option<seq<Parameter>>): (future: nat)
    ensures future >= 1
    ensures var raw := GetParameter(params, FutureWeeksName, DefaultFutureWeeks);
      && (raw >= 1.0 ==> future as real <= raw < future as real + 1.0)
      && (raw < 1.0 ==> future == 1)
  {
    var floor := GetParameter(params, FutureWeeksName, DefaultFutureWeeks).Floor;
    if floor < 1 then 1 else floor
  }

  /** Without parameters the forecaster smooths with 0.3 and forecasts ten weeks. */
  lemma DefaultsWithoutParameters()
    ensures Alpha(None) == DefaultAlpha
    ensures FutureWeeks(None) == 10
  {
  }

  /** The historical points: each sorted sample keeps its timestamp text and gets the
      rounded value of the line at its position. */
  function Fitted(sorted: seq<Sample>, line: Line): (r: seq<Point>)
    ensures |r| == |sorted|
    ensures forall i :: 0 <= i < |sorted| ==>
      r[i].timestamp == Given(sorted[i].timestamp.text) && r[i].value == Round(At(line, i as real))
  {
    seq(|sorted|, i requires 0 <= i < |sorted| =>
      Point(Given(sorted[i].timestamp.text), Round(At(line, i as real))))
  }

  /** The forecast points: the k-th (from 0) is dated k + 1 weeks after the UTC midnight of
      the latest sample `last`, at position n + k of the line. */
  function Projected(last: int, n: nat, line: Line, future: nat): (r: seq<Point>)
    ensures |r| == future
    ensures forall k :: 0 <= k < future ==>
      r[k].timestamp == Iso(WeekStep(last, k + 1)) && r[k].value == Round(At(line, (n + k) as real))
  {
    seq(future, k requires 0 <= k < future =>
      Point(Iso(WeekStep(last, k + 1)), Round(At(line, (n + k) as real))))
  }

  /** The points emitted for the sorted samples along `line`: the fitted history followed by
      `future` forecast points after the latest sample (`[...fitted, ...forecast]`). */
  function Points(sorted: seq<Sample>, line: Line, future: nat): (r: seq<Point>)
    requires sorted != []
    ensures |r| == |sorted| + future
  {
    Fitted(sorted, line) + Projected(sorted[|sorted| - 1].timestamp.millis, |sorted|, line, future)
  }

  /** The line the prediction follows: the least-squares fit of the smoothed sorted values. */
  function TrendOf(params: Option<seq<Parameter>>, sorted: seq<Sample>): (line: Line)
    ensures |sorted| == 1 ==> line == Line(sorted[0].value, 0.0)
  {
    assert |sorted| == 1 ==> Values(sorted) == [sorted[0].value];
    LeastSquares(Ema(Values(sorted), Alpha(params)))
  }

  /** What `predictSales` returns: nothing for no samples, and otherwise the points along
      the trend of the sorted samples. */
  function Predict(params: Option<seq<Parameter>>, data: seq<Sample>): (p: Prediction)
    ensures |p.data| == if data == [] then 0 else |data| + FutureWeeks(params)
  {
    if data == [] then Prediction([])
    else
      var sorted := SortByInstant(data);
      Prediction(Points(sorted, TrendOf(params, sorted), FutureWeeks(params)))
  }

  /** `predictSales`: resolve the parameters, sort, then either repeat the one rounded value
      or smooth, fit and emit the fitted and the forecast points. */
  method PredictSales(params: Option<seq<Parameter>>, data: seq<Sample>) returns (p: Prediction)
    ensures p == Predict(params, data)
  {
    var alpha := Alpha(params);
    var future := FutureWeeks(params);
    if |data| == 0 {
      return Prediction([]);
    }
    var sorted := SortByInstant(data);
    var values := Values(sorted);
    if |values| == 1 {
      var single := Round(values[0]);
      var out := [Point(Given(sorted[0].timestamp.text), single)];
      var lastDate := sorted[0].timestamp.millis;
      ghost var flat := Line(values[0], 0.0);
      ghost var expected := Points(sorted, flat, future);
      for i := 1 to future + 1
        invariant |out| == i
        invariant forall j :: 0 <= j < i ==> out[j] == expected[j]
      {
        var stamp := AddIsoWeeks(lastDate, i);
        assert At(flat, i as real) == values[0];
        out := out + [Point(Iso(stamp), single)];
      }
      return Prediction(out);
    }
    var ema := ComputeEma(values, alpha);
    var line := FitLinearTrend(ema);
    var fitted := FitHistory(sorted, line);
    var forecast := ForecastWeeks(sorted[|sorted| - 1].timestamp.millis, |sorted|, line, future);
    p := Prediction(fitted + forecast);
  }

  /** The `fitted` loop of `predictSales`: one point per sorted sample, at its position on
      the line. */
  method FitHistory(sorted: seq<Sample>, line: Line) returns (fitted: seq<Point>)
    ensures fitted == Fitted(sorted, line)
  {
    fitted := [];
    for i := 0 to |sorted|
      invariant fitted == Fitted(sorted, line)[..i]
    {
      var fittedVal := line.a + line.b * i as real;
      assert Fitted(sorted, line)[i] == Point(Given(sorted[i].timestamp.text), Round(fittedVal));
      assert Fitted(sorted, line)[..i + 1] == Fitted(sorted, line)[..i] + [Fitted(sorted, line)[i]];
      fitted := fitted + [Point(Given(sorted[i].timestamp.text), Round(fittedVal))];
    }
    assert Fitted(sorted, line)[..|sorted|] == Fitted(sorted, line);
  }

  /** The `forecast` loop of `predictSales`: for i = 1..future, the point dated i weeks after
      `lastDate`, at position n - 1 + i on the line. */
  method ForecastWeeks(lastDate: int, n: nat, line: Line, future: nat) returns (forecast: seq<Point>)
    ensures forecast == Projected(lastDate, n, line, future)
  {
    forecast := [];
    for i := 1 to future + 1
      invariant forecast == Projected(lastDate, n, line, future)[..i - 1]
    {
      var idx := n - 1 + i;
      var val := line.a + line.b * idx as real;
      var stamp := AddIsoWeeks(lastDate, i);
      assert idx as real == (n + (i - 1)) as real;
      assert val == At(line, (n + (i - 1)) as real);
      assert Projected(lastDate, n, line, future)[i - 1] == Point(Iso(stamp), Round(val));
      assert Projected(lastDate, n, line, future)[..i] ==
        Projected(lastDate, n, line, future)[..i - 1] + [Projected(lastDate, n, line, future)[i - 1]];
      forecast := forecast + [Point(Iso(stamp), Round(val))];
    }
    assert Projected(lastDate, n, line, future)[..future] == Projected(lastDate, n, line, future);
  }

  // ---------------------------------------------------------------------------------------
  // Properties of the prediction.

  /** Every point, historical or forecast, carries the rounded value of the line at its
      position: the forecast continues the trend fitted to the history. */
  lemma PointsOnLine(sorted: seq<Sample>, line: Line, future: nat)
    requires sorted != []
    ensures forall j :: 0 <= j < |sorted| + future ==>
      Points(sorted, line, future)[j].value == Round(At(line, j as real))
  {
    var n := |sorted|;
    forall j | 0 <= j < n + future ensures Points(sorted, line, future)[j].value == Round(At(line, j as real)) {
      if j >= n {
        assert (n + (j - n)) as real == j as real;
      }
    }
  }

  /** The history points keep the sorted samples' own timestamp texts, in order, and the
      forecast points are dated k + 1 weeks after the UTC midnight of the last sorted sample. */
  lemma PointsDates(sorted: seq<Sample>, line: Line, future: nat)
    requires sorted != []
    ensures forall i :: 0 <= i < |sorted| ==>
      Points(sorted, line, future)[i].timestamp == Given(sorted[i].timestamp.text)
    ensures forall j :: |sorted| <= j < |sorted| + future ==>
      Points(sorted, line, future)[j].timestamp ==
        Iso(WeekStep(sorted[|sorted| - 1].timestamp.millis, j - |sorted| + 1))
  {
  }

  /** The prediction is empty exactly when there are no samples. */
  lemma PredictEmpty(params: Option<seq<Parameter>>, data: seq<Sample>)
    ensures Predict(params, data).data == [] <==> data == []
  {
  }

  /** The sorted samples end with the latest one, which is one of the input samples. */
  lemma LatestIsLast(data: seq<Sample>)
    requires data != []
    ensures SortByInstant(data)[|data| - 1] in data
    ensures forall i :: 0 <= i < |data| ==> Key(data[i]) <= Key(SortByInstant(data)[|data| - 1])
  {
    var sorted := SortByInstant(data);
    SortIsSorted(data);
    SortIsPermutation(data);
    assert sorted[|data| - 1] in multiset(sorted);
    forall i | 0 <= i < |data| ensures Key(data[i]) <= Key(sorted[|data| - 1]) {
      assert data[i] in multiset(data);
      var j :| 0 <= j < |sorted| && sorted[j] == data[i];
    }
  }

  /** The history comes first, one point per sample, ascending by instant: every input sample
      contributes its own timestamp text exactly once. */
  lemma PredictHistory(params: Option<seq<Parameter>>, data: seq<Sample>)
    ensures var sorted := SortByInstant(data);
      && Sorted(sorted) && multiset(sorted) == multiset(data)
      && forall i :: 0 <= i < |data| ==>
           Predict(params, data).data[i].timestamp == Given(sorted[i].timestamp.text)
  {
    SortIsSorted(data);
    SortIsPermutation(data);
    if data != [] {
      var sorted := SortByInstant(data);
      PointsDates(sorted, TrendOf(params, sorted), FutureWeeks(params));
    }
  }

  /** The forecast follows the history: its k-th point (from 0) is dated k + 1 weeks after
      the UTC midnight of the latest sample. */
  lemma PredictForecastDates(params: Option<seq<Parameter>>, data: seq<Sample>, k: nat)
    requires data != [] && k < FutureWeeks(params)
    ensures Predict(params, data).data[|data| + k].timestamp ==
      Iso(WeekStep(SortByInstant(data)[|data| - 1].timestamp.millis, k + 1))
  {
    var sorted, line, future := SortByInstant(data), TrendOf(params, SortByInstant(data)), FutureWeeks(params);
    assert Predict(params, data).data == Points(sorted, line, future);
    ForecastPointDate(sorted, line, future, k);
  }

  lemma ForecastPointDate(sorted: seq<Sample>, line: Line, future: nat, k: nat)
    requires sorted != [] && k < future
    ensures Points(sorted, line, future)[|sorted| + k].timestamp ==
      Iso(WeekStep(sorted[|sorted| - 1].timestamp.millis, k + 1))
  {
    PointsDates(sorted, line, future);
    assert |sorted| + k - |sorted| + 1 == k + 1;
  }

  /** Forecast dates lie strictly after every sample's instant and are exactly seven days
      apart. */
  lemma ForecastAfterHistory(data: seq<Sample>, k: nat)
    requires data != []
    ensures var last := SortByInstant(data)[|data| - 1].timestamp.millis;
      && (forall i :: 0 <= i < |data| ==> data[i].timestamp.millis < WeekStep(last, k + 1))
      && WeekStep(last, k + 2) - WeekStep(last, k + 1) == 7 * Day
  {
    var last := SortByInstant(data)[|data| - 1].timestamp.millis;
    LatestIsLast(data);
    WeekStepIncreases(last, k + 1, k + 2);
  }

  /** Every point of the prediction is the rounded value of the sorted samples' trend at its
      position. */
  lemma PredictOnTrend(params: Option<seq<Parameter>>, data: seq<Sample>, j: nat)
    requires j < |Predict(params, data).data|
    ensures Predict(params, data).data[j].value ==
      Round(At(TrendOf(params, SortByInstant(data)), j as real))
  {
    var sorted := SortByInstant(data);
    PointsOnLine(sorted, TrendOf(params, sorted), FutureWeeks(params));
  }

  /** A single sample is repeated, rounded, at every point. */
  lemma PredictSingle(params: Option<seq<Parameter>>, s: Sample)
    ensures forall j :: 0 <= j < |Predict(params, [s]).data| ==>
      Predict(params, [s]).data[j].value == Round(s.value)
  {
    var sorted := SortByInstant([s]);
    assert sorted == [s];
    PointsOnLine(sorted, Line(s.value, 0.0), FutureWeeks(params));
  }

  /** Every sorted value is one of the input values. */
  lemma SortedValuesFromInput(data: seq<Sample>)
    ensures forall i :: 0 <= i < |data| ==> Values(SortByInstant(data))[i] in Values(data)
  {
    var sorted := SortByInstant(data);
    SortIsPermutation(data);
    forall i | 0 <= i < |data| ensures Values(sorted)[i] in Values(data) {
      assert sorted[i] in multiset(data);
      var j :| 0 <= j < |data| && data[j] == sorted[i];
      assert Values(data)[j] == sorted[i].value;
    }
  }

  /** A history whose values are all equal has the flat trend at that value. */
  lemma ConstantTrend(params: Option<seq<Parameter>>, data: seq<Sample>, c: real)
    requires data != []
    requires forall i :: 0 <= i < |data| ==> data[i].value == c
    ensures TrendOf(params, SortByInstant(data)) == Line(c, 0.0)
  {
    var v := Values(SortByInstant(data));
    SortedValuesFromInput(data);
    EmaConstant(v, Alpha(params), c);
    FitConstant(Ema(v, Alpha(params)), c);
  }

  /** A history whose values are all equal predicts that value, rounded, everywhere. */
  lemma PredictConstant(params: Option<seq<Parameter>>, data: seq<Sample>, c: real)
    requires forall i :: 0 <= i < |data| ==> data[i].value == c
    ensures forall j :: 0 <= j < |Predict(params, data).data| ==>
      Predict(params, data).data[j].value == Round(c)
  {
    if data != [] {
      var sorted := SortByInstant(data);
      ConstantTrend(params, data, c);
      PointsOnLine(sorted, Line(c, 0.0), FutureWeeks(params));
    }
  }

  /** The prediction depends on the order of the input only among samples with the same
      instant: reordering samples with distinct instants changes nothing. */
  lemma PredictIgnoresInputOrder(params: Option<seq<Parameter>>, d1: seq<Sample>, d2: seq<Sample>)
    requires SameRuns(d1, d2)
    ensures Predict(params, d1) == Predict(params, d2)
  {
    SortIgnoresInputOrder(d1, d2);
    SameRunsBothEmpty(d1, d2);
  }

  /** Samples with distinct instants give the same prediction in whatever order they
      arrive, reverse chronological order included. */
  lemma PredictAnyOrder(params: Option<seq<Parameter>>, d1: seq<Sample>, d2: seq<Sample>)
    requires DistinctInstants(d1) && DistinctInstants(d2) && multiset(d1) == multiset(d2)
    ensures Predict(params, d1) == Predict(params, d2)
  {
    DistinctSameRuns(d1, d2);
    PredictIgnoresInputOrder(params, d1, d2);
  }
}
