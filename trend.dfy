/** Ordinary least-squares line through a series against its positions 0..n-1
    (`fitLinearTrend`). */
module Trend {

  /** `{ a, b }`: the value at position x is a + b * x. */
  datatype Line = Line(a: real, b: real)

  function At(line: Line, x: real): real
  {
    line.a + line.b * x
  }

  /** y[0] + ... + y[k - 1], added left to right as `reduce` does. */
  function PrefixSum(y: seq<real>, k: nat): real
    requires k <= |y|
  {
    if k == 0 then 0.0 else PrefixSum(y, k - 1) + y[k - 1]
  }

  /** The mean position (n - 1) / 2. */
  function IndexMean(n: nat): real
  {
    (n as real - 1.0) / 2.0
  }

  /** The mean value, `y.reduce((s, v) => s + v, 0) / n`. */
  function Mean(y: seq<real>): real
    requires |y| > 0
  {
    PrefixSum(y, |y|) / |y| as real
  }

  /** The numerator accumulated over positions below k: the sum of dx * dy. */
  function CrossDeviation(y: seq<real>, xMean: real, yMean: real, k: nat): real
    requires k <= |y|
  {
    if k == 0 then 0.0
    else CrossDeviation(y, xMean, yMean, k - 1) + ((k - 1) as real - xMean) * (y[k - 1] - yMean)
  }

  /** The denominator accumulated over positions below k: the sum of dx * dx. */
  function SquareDeviation(xMean: real, k: nat): real
  {
    if k == 0 then 0.0
    else SquareDeviation(xMean, k - 1) + ((k - 1) as real - xMean) * ((k - 1) as real - xMean)
  }

  /** The line `fitLinearTrend` returns, in closed form: (0, 0) for no values, a flat line
      through the one value, and otherwise slope num / den through the centroid, with a flat
      line through the mean should den be 0. */
  function LeastSquares(y: seq<real>): (r: Line)
    ensures |y| == 0 ==> r == Line(0.0, 0.0)
    ensures |y| == 1 ==> r == Line(y[0], 0.0)
    ensures |y| >= 1 ==> At(r, IndexMean(|y|)) == Mean(y)
  {
    var n := |y|;
    if n == 0 then Line(0.0, 0.0)
    else if n == 1 then
      assert PrefixSum(y, 1) == y[0];
      Line(y[0], 0.0)
    else
      var xMean := IndexMean(n);
      var yMean := Mean(y);
      var num := CrossDeviation(y, xMean, yMean, n);
      var den := SquareDeviation(xMean, n);
      if den == 0.0 then Line(yMean, 0.0)
      else
        var b := num / den;
        Line(yMean - b * xMean, b)
  }

  /** `fitLinearTrend`: the mean by a fold, then one loop accumulating num and den. */
  method FitLinearTrend(y: seq<real>) returns (line: Line)
    ensures line == LeastSquares(y)
    ensures |y| == 0 ==> line == Line(0.0, 0.0)
    ensures |y| == 1 ==> line == Line(y[0], 0.0)
  {
    var n := |y|;
    if n == 0 {
      return Line(0.0, 0.0);
    }
    if n == 1 {
      return Line(y[0], 0.0);
    }
    var xMean := (n as real - 1.0) / 2.0;
    var yMean := PrefixSum(y, n) / n as real;
    var num := 0.0;
    var den := 0.0;
    for i := 0 to n
      invariant num == CrossDeviation(y, xMean, yMean, i)
      invariant den == SquareDeviation(xMean, i)
    {
      var dx := i as real - xMean;
      num := num + dx * (y[i] - yMean);
      den := den + dx * dx;
    }
    if den == 0.0 {
      return Line(yMean, 0.0);
    }
    var b := num / den;
    var a := yMean - b * xMean;
    line := Line(a, b);
  }

  // ---------------------------------------------------------------------------------------
  // Power sums over positions, in which the fit's quantities are polynomials.

  /** 0 + 1 + ... + (k - 1). */
  function IndexSum(k: nat): real
  {
    if k == 0 then 0.0 else IndexSum(k - 1) + (k - 1) as real
  }

  /** 0 + 1 + 4 + ... + (k - 1)^2. */
  function IndexSquareSum(k: nat): real
  {
    if k == 0 then 0.0 else IndexSquareSum(k - 1) + (k - 1) as real * (k - 1) as real
  }

  /** 0 * y[0] + 1 * y[1] + ... + (k - 1) * y[k - 1]. */
  function WeightedSum(y: seq<real>, k: nat): real
    requires k <= |y|
  {
    if k == 0 then 0.0 else WeightedSum(y, k - 1) + (k - 1) as real * y[k - 1]
  }

  lemma {:induction false} IndexSumClosed(k: nat)
    ensures IndexSum(k) == k as real * (k as real - 1.0) / 2.0
  {
    if k > 0 {
      IndexSumClosed(k - 1);
      var m := (k - 1) as real;
      assert IndexSum(k) == m * (m - 1.0) / 2.0 + m;
      assert m * (m - 1.0) / 2.0 + m == (m + 1.0) * m / 2.0;
    }
  }

  /** `c` is the cross deviation written through the power sums `w`, `sy`, `s1` over `m` positions. */
  ghost predicate CrossForm(c: real, w: real, sy: real, s1: real, m: real, xMean: real, yMean: real)
  {
    c == w - xMean * sy - yMean * s1 + m * xMean * yMean
  }

  /** The primed sums are the unprimed ones after one more position `m` with value `v`. */
  ghost predicate CrossAdvance(c: real, w: real, sy: real, s1: real, m: real,
                               c': real, w': real, sy': real, s1': real, m': real, v: real, xMean: real, yMean: real)
  {
    c' == c + (m - xMean) * (v - yMean) && w' == w + m * v && sy' == sy + v && s1' == s1 + m && m' == m + 1.0
  }

  /** The numerator over the first k positions in terms of the power sums. */
  ghost predicate CrossExpanded(y: seq<real>, xMean: real, yMean: real, k: nat)
    requires k <= |y|
  {
    CrossForm(CrossDeviation(y, xMean, yMean, k), WeightedSum(y, k), PrefixSum(y, k), IndexSum(k), k as real, xMean, yMean)
  }

  lemma {:induction false} CrossDeviationExpand(y: seq<real>, xMean: real, yMean: real, k: nat)
    requires k <= |y|
    ensures CrossExpanded(y, xMean, yMean, k)
    decreases k
  {
    if k > 0 {
      CrossDeviationExpand(y, xMean, yMean, k - 1);
      CrossExpandedStep(y, xMean, yMean, k);
    }
  }

  lemma CrossExpandedStep(y: seq<real>, xMean: real, yMean: real, k: nat)
    requires 0 < k <= |y| && CrossExpanded(y, xMean, yMean, k - 1)
    ensures CrossExpanded(y, xMean, yMean, k)
  {
    assert CrossAdvance(CrossDeviation(y, xMean, yMean, k - 1), WeightedSum(y, k - 1), PrefixSum(y, k - 1),
                        IndexSum(k - 1), (k - 1) as real, CrossDeviation(y, xMean, yMean, k), WeightedSum(y, k),
                        PrefixSum(y, k), IndexSum(k), k as real, y[k - 1], xMean, yMean);
    CrossStep(CrossDeviation(y, xMean, yMean, k - 1), WeightedSum(y, k - 1), PrefixSum(y, k - 1),
              IndexSum(k - 1), (k - 1) as real, CrossDeviation(y, xMean, yMean, k), WeightedSum(y, k),
              PrefixSum(y, k), IndexSum(k), k as real, y[k - 1], xMean, yMean);
  }

  lemma CrossStep(c: real, w: real, sy: real, s1: real, m: real,
                  c': real, w': real, sy': real, s1': real, m': real, v: real, xMean: real, yMean: real)
    requires CrossForm(c, w, sy, s1, m, xMean, yMean)
    requires CrossAdvance(c, w, sy, s1, m, c', w', sy', s1', m', v, xMean, yMean)
    ensures CrossForm(c', w', sy', s1', m', xMean, yMean)
  {
    assert (m - xMean) * (v - yMean) == m * v - xMean * v - yMean * m + xMean * yMean;
    assert m' * xMean * yMean == m * xMean * yMean + xMean * yMean;
  }

  /** `d` is the squared deviation of the indices through the power sums `s2`, `s1` over `m` positions. */
  ghost predicate SquareForm(d: real, s2: real, s1: real, m: real, xMean: real)
  {
    d == s2 - 2.0 * xMean * s1 + m * xMean * xMean
  }

  ghost predicate SquareAdvance(d: real, s2: real, s1: real, m: real, d': real, s2': real, s1': real, m': real, xMean: real)
  {
    d' == d + (m - xMean) * (m - xMean) && s2' == s2 + m * m && s1' == s1 + m && m' == m + 1.0
  }

  /** The denominator over the first k positions in terms of the power sums. */
  ghost predicate SquareExpanded(xMean: real, k: nat)
  {
    SquareForm(SquareDeviation(xMean, k), IndexSquareSum(k), IndexSum(k), k as real, xMean)
  }

  lemma {:induction false} SquareDeviationExpand(xMean: real, k: nat)
    ensures SquareExpanded(xMean, k)
    decreases k
  {
    if k > 0 {
      SquareDeviationExpand(xMean, k - 1);
      SquareExpandedStep(xMean, k);
    }
  }

  lemma SquareExpandedStep(xMean: real, k: nat)
    requires 0 < k && SquareExpanded(xMean, k - 1)
    ensures SquareExpanded(xMean, k)
  {
    assert SquareAdvance(SquareDeviation(xMean, k - 1), IndexSquareSum(k - 1), IndexSum(k - 1), (k - 1) as real,
                         SquareDeviation(xMean, k), IndexSquareSum(k), IndexSum(k), k as real, xMean);
    SquareStep(SquareDeviation(xMean, k - 1), IndexSquareSum(k - 1), IndexSum(k - 1), (k - 1) as real,
               SquareDeviation(xMean, k), IndexSquareSum(k), IndexSum(k), k as real, xMean);
  }

  lemma SquareStep(d: real, s2: real, s1: real, m: real, d': real, s2': real, s1': real, m': real, xMean: real)
    requires SquareForm(d, s2, s1, m, xMean)
    requires SquareAdvance(d, s2, s1, m, d', s2', s1', m', xMean)
    ensures SquareForm(d', s2', s1', m', xMean)
  {
    assert (m - xMean) * (m - xMean) == m * m - 2.0 * xMean * m + xMean * xMean;
    assert m' * xMean * xMean == m * xMean * xMean + xMean * xMean;
  }

  // ---------------------------------------------------------------------------------------
  // The den === 0 guard cannot fire once there are two values.

  lemma ProductPositive(u: real, v: real)
    requires u > 0.0 && v > 0.0
    ensures u * v > 0.0
  {
  }

  lemma {:induction false} SquareDeviationAtLeastFirst(xMean: real, k: nat)
    requires k >= 1
    ensures SquareDeviation(xMean, k) >= xMean * xMean
  {
    if k > 1 {
      SquareDeviationAtLeastFirst(xMean, k - 1);
      var d := (k - 1) as real - xMean;
      assert d * d >= 0.0;
    }
  }

  /** With two or more values the denominator is positive, so the fit always takes the
      num / den branch and the flat-line guard is unreachable. */
  lemma DenominatorPositive(n: nat)
    requires n >= 2
    ensures SquareDeviation(IndexMean(n), n) > 0.0
  {
    var xMean := IndexMean(n);
    SquareDeviationAtLeastFirst(xMean, n);
    ProductPositive(xMean, xMean);
  }

  // ---------------------------------------------------------------------------------------
  // The fit solves the least-squares normal equations, and they have one solution.

  /** The normal equations of least squares against positions x = 0..n-1:
      sum(y) = n * a + b * sum(x) and sum(x * y) = a * sum(x) + b * sum(x * x).
      A line meets them exactly when it minimises the sum of squared residuals. */
  ghost predicate NormalEquations(y: seq<real>, line: Line)
  {
    ValueEquation(y, line, |y|) && WeightedEquation(y, line, |y|)
  }

  /** sum(y) = n * a + b * sum(x) over the first k positions. */
  ghost predicate ValueEquation(y: seq<real>, line: Line, k: nat)
    requires k <= |y|
  {
    ValueForm(PrefixSum(y, k), k as real, IndexSum(k), line.a, line.b)
  }

  /** sum(x * y) = a * sum(x) + b * sum(x * x) over the first k positions. */
  ghost predicate WeightedEquation(y: seq<real>, line: Line, k: nat)
    requires k <= |y|
  {
    WeightedForm(WeightedSum(y, k), IndexSum(k), IndexSquareSum(k), line.a, line.b)
  }

  /** The first normal equation over plain sums: `sy` sums the values, `s1` the `n` positions. */
  ghost predicate ValueForm(sy: real, n: real, s1: real, a: real, b: real)
  {
    sy == n * a + b * s1
  }

  /** The second normal equation over plain sums: `sxy` sums the position-weighted values,
      `s1` and `s2` the positions and their squares. */
  ghost predicate WeightedForm(sxy: real, s1: real, s2: real, a: real, b: real)
  {
    sxy == a * s1 + b * s2
  }

  /** The sum of positions is n times their mean. */
  lemma IndexSumIsCount(n: nat)
    ensures IndexSum(n) == n as real * IndexMean(n)
  {
    IndexSumClosed(n);
  }

  /** The sum of values is n times their mean. */
  lemma PrefixSumIsCount(y: seq<real>)
    requires |y| >= 1
    ensures PrefixSum(y, |y|) == |y| as real * Mean(y)
  {
  }

  /** The numerator of the slope in terms of the power sums, for any value `yMean` that is
      the mean of `y`. */
  lemma CrossDeviationTotal(y: seq<real>, yMean: real)
    requires |y| >= 1 && PrefixSum(y, |y|) == |y| as real * yMean
    ensures CrossDeviation(y, IndexMean(|y|), yMean, |y|) ==
      WeightedSum(y, |y|) - |y| as real * IndexMean(|y|) * yMean
  {
    var n, xMean := |y| as real, IndexMean(|y|);
    var s1, sy := IndexSum(|y|), PrefixSum(y, |y|);
    CrossDeviationExpand(y, xMean, yMean, |y|);
    IndexSumIsCount(|y|);
    CrossAlgebra(n, xMean, yMean, s1, sy, WeightedSum(y, |y|), CrossDeviation(y, xMean, yMean, |y|));
  }

  lemma CrossAlgebra(n: real, xMean: real, yMean: real, s1: real, sy: real, sxy: real, c: real)
    requires s1 == n * xMean && sy == n * yMean
    requires c == sxy - xMean * sy - yMean * s1 + n * xMean * yMean
    ensures c == sxy - n * xMean * yMean
  {
    assert xMean * sy == n * xMean * yMean;
    assert yMean * s1 == n * xMean * yMean;
  }

  /** The denominator of the slope in terms of the power sums. */
  lemma SquareDeviationTotal(n: nat)
    ensures SquareDeviation(IndexMean(n), n) == IndexSquareSum(n) - n as real * IndexMean(n) * IndexMean(n)
  {
    var xMean := IndexMean(n);
    SquareDeviationExpand(xMean, n);
    IndexSumIsCount(n);
    SquareAlgebra(n as real, xMean, IndexSum(n), IndexSquareSum(n), SquareDeviation(xMean, n));
  }

  lemma SquareAlgebra(n: real, xMean: real, s1: real, s2: real, d: real)
    requires s1 == n * xMean
    requires d == s2 - 2.0 * xMean * s1 + n * xMean * xMean
    ensures d == s2 - n * xMean * xMean
  {
    assert xMean * s1 == n * xMean * xMean;
  }

  /** The algebra behind the normal equations, on the power sums alone. */
  lemma NormalAlgebra(n: real, xMean: real, yMean: real, s1: real, s2: real, sy: real, sxy: real,
                      num: real, den: real, a: real, b: real)
    requires s1 == n * xMean && sy == n * yMean
    requires num == sxy - n * xMean * yMean && den == s2 - n * xMean * xMean
    requires b * den == num && a == yMean - b * xMean
    ensures ValueForm(sy, n, s1, a, b) && WeightedForm(sxy, s1, s2, a, b)
  {
    assert a * s1 == n * xMean * yMean - b * (n * xMean * xMean);
  }

  /** For two or more values the fit takes the num / den branch: its slope times den is num
      and it passes through the centroid. */
  lemma LeastSquaresSlope(y: seq<real>)
    requires |y| >= 2
    ensures LeastSquares(y).b * SquareDeviation(IndexMean(|y|), |y|) ==
      CrossDeviation(y, IndexMean(|y|), Mean(y), |y|)
    ensures LeastSquares(y).a == Mean(y) - LeastSquares(y).b * IndexMean(|y|)
  {
    DenominatorPositive(|y|);
  }

  lemma Substitute(b: real, den: real, num: real, den': real, num': real)
    requires den == den' && num == num' && b * den == num
    ensures b * den' == num'
  {
  }

  /** The slope condition b * den == num with den written in power sums. */
  lemma SlopeOverSquares(y: seq<real>, yMean: real, b: real)
    requires |y| >= 2
    requires b * SquareDeviation(IndexMean(|y|), |y|) == CrossDeviation(y, IndexMean(|y|), yMean, |y|)
    ensures b * (IndexSquareSum(|y|) - |y| as real * IndexMean(|y|) * IndexMean(|y|)) ==
      CrossDeviation(y, IndexMean(|y|), yMean, |y|)
  {
    SquareDeviationTotal(|y|);
    Substitute(b, SquareDeviation(IndexMean(|y|), |y|), CrossDeviation(y, IndexMean(|y|), yMean, |y|),
      IndexSquareSum(|y|) - |y| as real * IndexMean(|y|) * IndexMean(|y|),
      CrossDeviation(y, IndexMean(|y|), yMean, |y|));
  }

  /** The slope condition b * den == num with den and num written in power sums. */
  lemma SlopeOverPowerSums(y: seq<real>, yMean: real, b: real)
    requires |y| >= 2 && PrefixSum(y, |y|) == |y| as real * yMean
    requires b * SquareDeviation(IndexMean(|y|), |y|) == CrossDeviation(y, IndexMean(|y|), yMean, |y|)
    ensures b * (IndexSquareSum(|y|) - |y| as real * IndexMean(|y|) * IndexMean(|y|)) ==
      WeightedSum(y, |y|) - |y| as real * IndexMean(|y|) * yMean
  {
    SlopeOverSquares(y, yMean, b);
    CrossDeviationTotal(y, yMean);
  }

  /** A line through the centroid (IndexMean, yMean) whose slope meets the slope condition
      in power sums solves the normal equations. */
  lemma PowerSumLineIsNormal(y: seq<real>, yMean: real, line: Line)
    requires |y| >= 2 && PrefixSum(y, |y|) == |y| as real * yMean
    requires line.b * (IndexSquareSum(|y|) - |y| as real * IndexMean(|y|) * IndexMean(|y|)) ==
      WeightedSum(y, |y|) - |y| as real * IndexMean(|y|) * yMean
    requires line.a == yMean - line.b * IndexMean(|y|)
    ensures NormalEquations(y, line)
  {
    IndexSumIsCount(|y|);
    var n, xMean := |y| as real, IndexMean(|y|);
    NormalAlgebra(n, xMean, yMean, IndexSum(|y|), IndexSquareSum(|y|), PrefixSum(y, |y|),
                  WeightedSum(y, |y|), WeightedSum(y, |y|) - n * xMean * yMean,
                  IndexSquareSum(|y|) - n * xMean * xMean, line.a, line.b);
  }

  /** Any line through the centroid (IndexMean, yMean) whose slope times den is num solves
      the normal equations. */
  lemma CentroidLineIsNormal(y: seq<real>, yMean: real, line: Line)
    requires |y| >= 2 && PrefixSum(y, |y|) == |y| as real * yMean
    requires line.b * SquareDeviation(IndexMean(|y|), |y|) == CrossDeviation(y, IndexMean(|y|), yMean, |y|)
    requires line.a == yMean - line.b * IndexMean(|y|)
    ensures NormalEquations(y, line)
  {
    SlopeOverPowerSums(y, yMean, line.b);
    PowerSumLineIsNormal(y, yMean, line);
  }

  /** The fitted line solves the normal equations, for every input length: it is the
      least-squares line. */
  lemma FitSolvesNormalEquations(y: seq<real>)
    ensures NormalEquations(y, LeastSquares(y))
  {
    if |y| == 1 {
      assert PrefixSum(y, 1) == y[0];
    } else if |y| >= 2 {
      LeastSquaresSlope(y);
      PrefixSumIsCount(y);
      CentroidLineIsNormal(y, Mean(y), LeastSquares(y));
    }
  }

  /** The indices are spread out: they sum to n times their mean and their squares exceed that. */
  ghost predicate Spread(n: real, xMean: real, s1: real, s2: real)
  {
    n > 0.0 && s1 == n * xMean && s2 - n * xMean * xMean > 0.0
  }

  /** The algebra behind uniqueness: two solutions of a 2 x 2 system with positive
      determinant coincide. */
  lemma UniqueAlgebra(n: real, xMean: real, s1: real, s2: real, sy: real, sxy: real,
                      a1: real, b1: real, a2: real, b2: real)
    requires Spread(n, xMean, s1, s2)
    requires ValueForm(sy, n, s1, a1, b1) && WeightedForm(sxy, s1, s2, a1, b1)
    requires ValueForm(sy, n, s1, a2, b2) && WeightedForm(sxy, s1, s2, a2, b2)
    ensures a1 == a2 && b1 == b2
  {
    var da, db := a1 - a2, b1 - b2;
    assert n * da + s1 * db == 0.0;
    assert s1 * da + s2 * db == 0.0;
    assert n * (da + xMean * db) == 0.0;
    assert da == - xMean * db;
    assert (s2 - n * xMean * xMean) * db == 0.0;
  }

  /** From two positions on, the indices are spread out. */
  lemma IndicesSpread(n: nat)
    requires n >= 2
    ensures Spread(n as real, IndexMean(n), IndexSum(n), IndexSquareSum(n))
  {
    IndexSumIsCount(n);
    SquareDeviationTotal(n);
    DenominatorPositive(n);
  }

  /** With two or more values at most one line solves the normal equations. */
  lemma NormalEquationsUnique(y: seq<real>, l1: Line, l2: Line)
    requires |y| >= 2 && NormalEquations(y, l1) && NormalEquations(y, l2)
    ensures l1 == l2
  {
    var n := |y|;
    IndicesSpread(n);
    UniqueAlgebra(n as real, IndexMean(n), IndexSum(n), IndexSquareSum(n), PrefixSum(y, n), WeightedSum(y, n),
                  l1.a, l1.b, l2.a, l2.b);
  }

  /** The first k values lie on the line. */
  ghost predicate OnLine(y: seq<real>, line: Line, k: nat)
    requires k <= |y|
  {
    k == 0 || (OnLine(y, line, k - 1) && y[k - 1] == At(line, (k - 1) as real))
  }

  lemma {:induction false} AllOnLine(y: seq<real>, line: Line, k: nat)
    requires k <= |y|
    requires forall i :: 0 <= i < |y| ==> y[i] == At(line, i as real)
    ensures OnLine(y, line, k)
  {
    if k > 0 {
      AllOnLine(y, line, k - 1);
    }
  }

  /** Values lying on a line meet that line's first normal equation over every prefix. */
  lemma {:induction false} LineValueSum(y: seq<real>, line: Line, k: nat)
    requires k <= |y| && OnLine(y, line, k)
    ensures ValueEquation(y, line, k)
    decreases k
  {
    if k > 0 {
      LineValueSum(y, line, k - 1);
      ValueEquationStep(y, line, k);
    }
  }

  lemma ValueEquationStep(y: seq<real>, line: Line, k: nat)
    requires 0 < k <= |y| && ValueEquation(y, line, k - 1) && y[k - 1] == At(line, (k - 1) as real)
    ensures ValueEquation(y, line, k)
  {
    var i := (k - 1) as real;
    assert PrefixSum(y, k) == PrefixSum(y, k - 1) + y[k - 1];
    assert IndexSum(k) == IndexSum(k - 1) + i;
    ValueStep(PrefixSum(y, k - 1), IndexSum(k - 1), PrefixSum(y, k), IndexSum(k), i, k as real, y[k - 1], line.a, line.b);
  }

  lemma ValueStep(sy: real, s1: real, sy': real, s1': real, i: real, j: real, v: real, a: real, b: real)
    requires ValueForm(sy, i, s1, a, b) && j == i + 1.0 && v == a + b * i
    requires sy' == sy + v && s1' == s1 + i
    ensures ValueForm(sy', j, s1', a, b)
  {
  }

  /** Values lying on a line meet that line's second normal equation over every prefix. */
  lemma {:induction false} LineWeightedSum(y: seq<real>, line: Line, k: nat)
    requires k <= |y| && OnLine(y, line, k)
    ensures WeightedEquation(y, line, k)
    decreases k
  {
    if k > 0 {
      LineWeightedSum(y, line, k - 1);
      WeightedEquationStep(y, line, k);
    }
  }

  lemma WeightedEquationStep(y: seq<real>, line: Line, k: nat)
    requires 0 < k <= |y| && WeightedEquation(y, line, k - 1) && y[k - 1] == At(line, (k - 1) as real)
    ensures WeightedEquation(y, line, k)
  {
    var i := (k - 1) as real;
    assert WeightedSum(y, k) == WeightedSum(y, k - 1) + i * y[k - 1];
    assert IndexSum(k) == IndexSum(k - 1) + i;
    assert IndexSquareSum(k) == IndexSquareSum(k - 1) + i * i;
    WeightedStep(WeightedSum(y, k - 1), IndexSum(k - 1), IndexSquareSum(k - 1),
                 WeightedSum(y, k), IndexSum(k), IndexSquareSum(k), i, y[k - 1], line.a, line.b);
  }

  lemma WeightedStep(sxy: real, s1: real, s2: real, sxy': real, s1': real, s2': real,
                     i: real, v: real, a: real, b: real)
    requires WeightedForm(sxy, s1, s2, a, b) && v == a + b * i
    requires sxy' == sxy + i * v && s1' == s1 + i && s2' == s2 + i * i
    ensures WeightedForm(sxy', s1', s2', a, b)
  {
  }

  /** A line through every value solves the normal equations. */
  lemma LineIsNormal(y: seq<real>, line: Line)
    requires OnLine(y, line, |y|)
    ensures NormalEquations(y, line)
  {
    LineValueSum(y, line, |y|);
    LineWeightedSum(y, line, |y|);
  }

  /** Values that already lie on a line are fitted by exactly that line. */
  lemma FitExactOnLine(y: seq<real>, line: Line)
    requires |y| >= 2
    requires forall i :: 0 <= i < |y| ==> y[i] == At(line, i as real)
    ensures LeastSquares(y) == line
  {
    AllOnLine(y, line, |y|);
    LineIsNormal(y, line);
    FitSolvesNormalEquations(y);
    NormalEquationsUnique(y, LeastSquares(y), line);
  }

  /** A constant series is fitted by a flat line at that constant. */
  lemma FitConstant(y: seq<real>, c: real)
    requires |y| >= 1
    requires forall i :: 0 <= i < |y| ==> y[i] == c
    ensures LeastSquares(y) == Line(c, 0.0)
  {
    if |y| >= 2 {
      FitExactOnLine(y, Line(c, 0.0));
    }
  }
}
