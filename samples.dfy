/** Records exchanged with the forecaster, and JavaScript's Math.round on exact reals. */
module Samples {

  /** An ISO-8601 string together with the instant Date.parse gives it, in milliseconds
      since the Unix epoch. The parse itself is a library call and is not modelled. */
  datatype Timestamp = Timestamp(text: string, millis: int)

  /** One input observation: `{ timestamp, value }`. */
  datatype Sample = Sample(timestamp: Timestamp, value: real)

  /** The timestamp of an output point: either an input string passed through unchanged,
      or the string toISOString renders for an instant (the rendering is not modelled). */
  datatype Stamp = Given(text: string) | Iso(millis: int)

  /** One output point; every output value is an integer because it went through Math.round. */
  datatype Point = Point(timestamp: Stamp, value: int)

  /** The forecaster's result `{ data }`. */
  datatype Prediction = Prediction(data: seq<Point>)

  /** Math.round: the nearest integer, halves going toward positive infinity
      (so Round(2.5) == 3 and Round(-2.5) == -2). */
  function Round(x: real): (r: int)
    ensures r as real - 0.5 <= x < r as real + 0.5
  {
    (x + 0.5).Floor
  }

  /** Values of a sample sequence, in order (`sorted.map(d => d.value)`). */
  function Values(s: seq<Sample>): (v: seq<real>)
    ensures |v| == |s|
    ensures forall i :: 0 <= i < |s| ==> v[i] == s[i].value
  {
    seq(|s|, i requires 0 <= i < |s| => s[i].value)
  }
}
