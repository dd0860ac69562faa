/** UTC calendar arithmetic on instants in milliseconds (`addIsoWeeks`). */
module Dates {

  /** Milliseconds in a UTC day; UTC days have no daylight-saving shifts, and
      JavaScript's Date ignores leap seconds. */
  const Day: int := 86_400_000

  /** The instant at which the UTC day containing `t` starts (`setUTCHours(0, 0, 0, 0)`).
      Dafny's division rounds toward negative infinity for a positive divisor, which is what
      truncating to midnight does for instants before 1970 too. */
  function UtcMidnight(t: int): (m: int)
    ensures m % Day == 0
    ensures m <= t < m + Day
  {
    (t / Day) * Day
  }

  /** The instant `weeks` weeks after the UTC midnight that starts the day of `base`:
      the date every forecast point is given. */
  function WeekStep(base: int, weeks: int): (t: int)
    ensures t % Day == 0
    ensures t == UtcMidnight(base + weeks * 7 * Day)
  {
    MidnightShift(base, weeks * 7);
    UtcMidnight(base) + weeks * 7 * Day
  }

  /** Adding whole days does not move an instant within its day. */
  lemma MidnightShift(t: int, days: int)
    ensures UtcMidnight(t + days * Day) == UtcMidnight(t) + days * Day
  {
    var m := UtcMidnight(t);
    var s := t + days * Day;
    var q := m + days * Day;
    assert q <= s < q + Day;
    assert q % Day == 0 by {
      assert q == (t / Day + days) * Day;
    }
    MidnightUnique(s, q);
  }

  /** A midnight within a day of `t` and not after it is the midnight of `t`. */
  lemma MidnightUnique(t: int, q: int)
    requires q % Day == 0 && q <= t < q + Day
    ensures UtcMidnight(t) == q
  {
    var m := UtcMidnight(t);
    var k := q / Day;
    assert q == k * Day;
    var j := t / Day;
    assert m == j * Day;
  }

  /** `addIsoWeeks`: copy the date, move it `weeks * 7` days forward with
      setUTCDate, then truncate it to UTC midnight. The result is the instant
      rendered by toISOString. */
  method AddIsoWeeks(base: int, weeks: int) returns (millis: int)
    ensures millis == WeekStep(base, weeks)
    ensures millis % Day == 0
  {
    var date := base;
    date := date + weeks * 7 * Day;
    date := (date / Day) * Day;
    MidnightShift(base, weeks * 7);
    millis := date;
  }

  /** Forecast dates advance by exactly seven days per step, and every one of them
      lies strictly after the base instant. */
  lemma WeekStepIncreases(base: int, j: int, k: int)
    requires 1 <= j < k
    ensures WeekStep(base, k) - WeekStep(base, j) == (k - j) * 7 * Day
    ensures base < WeekStep(base, j) < WeekStep(base, k)
  {
    var m := UtcMidnight(base);
    assert WeekStep(base, j) == m + j * 7 * Day;
    assert (k - j) * 7 * Day > 0;
  }
}
