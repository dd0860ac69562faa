/** Exponential moving average (`computeEMA`). */
module Smoothing {

  /** One smoothing step: the new value weighted by alpha, the previous average by 1 - alpha. */
  function Blend(alpha: real, current: real, previous: real): real
  {
    alpha * current + (1.0 - alpha) * previous
  }

  /** The smoothed series: e[0] = v[0] and e[i] = Blend(alpha, v[i], e[i - 1]). */
  function Ema(v: seq<real>, alpha: real): (e: seq<real>)
    ensures |e| == |v|
  {
    if |v| <= 1 then v
    else
      var prior := Ema(v[..|v| - 1], alpha);
      prior + [Blend(alpha, v[|v| - 1], prior[|v| - 2])]
  }

  /** Smoothing a prefix gives the prefix of the smoothed series: the average at a
      position never depends on later values. */
  lemma {:induction false} EmaPrefix(v: seq<real>, alpha: real, k: nat)
    requires k <= |v|
    ensures Ema(v[..k], alpha) == Ema(v, alpha)[..k]
    decreases |v|
  {
    if k < |v| && |v| > 1 {
      var init := v[..|v| - 1];
      EmaPrefix(init, alpha, k);
      assert init[..k] == v[..k];
    } else if k < |v| {
      assert k == 0;
    } else {
      assert v[..k] == v;
    }
  }

  /** The first average is the first value. */
  lemma EmaFirst(v: seq<real>, alpha: real)
    requires |v| > 0
    ensures Ema(v, alpha)[0] == v[0]
  {
    EmaPrefix(v, alpha, 1);
    assert Ema(v[..1], alpha) == v[..1];
  }

  /** Every later average follows the recurrence. */
  lemma EmaStep(v: seq<real>, alpha: real, i: nat)
    requires 1 <= i < |v|
    ensures Ema(v, alpha)[i] == alpha * v[i] + (1.0 - alpha) * Ema(v, alpha)[i - 1]
  {
    EmaPrefix(v, alpha, i + 1);
    var w := v[..i + 1];
    assert w[..|w| - 1] == v[..i];
    EmaPrefix(v, alpha, i);
  }

  /** `computeEMA`: one pass that pushes each average onto `result`. */
  method ComputeEma(values: seq<real>, alpha: real) returns (result: seq<real>)
    ensures result == Ema(values, alpha)
  {
    if |values| == 0 {
      return [];
    }
    result := [];
    var previousValue := values[0];
    result := result + [previousValue];
    assert values[..1] == [values[0]];
    for i := 1 to |values|
      invariant result == Ema(values[..i], alpha)
      invariant previousValue == result[i - 1]
    {
      var currentValue := values[i];
      var e := alpha * currentValue + (1.0 - alpha) * previousValue;
      ghost var w := values[..i + 1];
      assert w[..|w| - 1] == values[..i] && w[|w| - 1] == currentValue;
      assert e == Blend(alpha, currentValue, previousValue);
      result := result + [e];
      previousValue := e;
    }
    assert values[..|values|] == values;
  }

  /** A constant series smooths to itself. */
  lemma {:induction false} EmaConstant(v: seq<real>, alpha: real, c: real)
    requires forall i :: 0 <= i < |v| ==> v[i] == c
    ensures forall i :: 0 <= i < |v| ==> Ema(v, alpha)[i] == c
  {
    if |v| > 1 {
      var init := v[..|v| - 1];
      EmaConstant(init, alpha, c);
      var prior := Ema(init, alpha);
      assert prior[|v| - 2] == c;
      assert Blend(alpha, c, c) == c;
    }
  }

  lemma ProductNonNegative(a: real, b: real)
    requires a >= 0.0 && b >= 0.0
    ensures a * b >= 0.0
  {
  }

  /** A blend with a weight in [0, 1] lies between any bounds of its two inputs. */
  lemma BlendBetween(alpha: real, x: real, p: real, lo: real, hi: real)
    requires 0.0 <= alpha <= 1.0 && lo <= x <= hi && lo <= p <= hi
    ensures lo <= Blend(alpha, x, p) <= hi
  {
    var beta := 1.0 - alpha;
    assert beta >= 0.0 && p - lo >= 0.0 && hi - p >= 0.0;
    var b := Blend(alpha, x, p);
    assert b - lo == alpha * (x - lo) + beta * (p - lo);
    assert hi - b == alpha * (hi - x) + beta * (hi - p);
    ProductNonNegative(alpha, x - lo);
    ProductNonNegative(beta, p - lo);
    ProductNonNegative(alpha, hi - x);
    ProductNonNegative(beta, hi - p);
  }

  /** With alpha in [0, 1] every average is a weighted mean of values seen so far, so the
      smoothed series stays within any bounds the input keeps. */
  lemma {:induction false} EmaBounded(v: seq<real>, alpha: real, lo: real, hi: real)
    requires 0.0 <= alpha <= 1.0
    requires forall i :: 0 <= i < |v| ==> lo <= v[i] <= hi
    ensures forall i :: 0 <= i < |v| ==> lo <= Ema(v, alpha)[i] <= hi
  {
    if |v| > 1 {
      var init := v[..|v| - 1];
      EmaBounded(init, alpha, lo, hi);
      var prior := Ema(init, alpha);
      var x, p := v[|v| - 1], prior[|v| - 2];
      BlendBetween(alpha, x, p, lo, hi);
      assert Ema(v, alpha) == prior + [Blend(alpha, x, p)];
      forall i | 0 <= i < |v| ensures lo <= Ema(v, alpha)[i] <= hi {
        if i < |v| - 1 {
          assert Ema(v, alpha)[i] == prior[i];
        }
      }
    }
  }
}
