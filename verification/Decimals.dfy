/** Shared value types. A Decimal of the source is an exact `real`. */
module Decimals {

  datatype Option<+T> = None | Some(value: T)

  datatype Result<+T, +E> = Ok(value: T) | Err(error: E)

  /** Fills and exposures: the adapter contract promises that they are never negative. */
  type Qty = r: real | r >= 0.0 witness 0.0

  function Min(a: real, b: real): real {
    if a < b then a else b
  }

  function Max(a: real, b: real): real {
    if a > b then a else b
  }

  function Abs(a: real): real {
    if a < 0.0 then -a else a
  }

  /** Rounds down to a multiple of the step. */
  function Quantize(d: real, step: real): real
    requires step != 0.0
  {
    (d / step).Floor as real * step
  }

  /** The largest multiple of the step that is not above d. */
  lemma QuantizeIsLargest(d: real, step: real)
    requires step > 0.0
    ensures Quantize(d, step) <= d < Quantize(d, step) + step
    ensures Quantize(d, step) / step == (d / step).Floor as real
  {
    var q := d / step;
    Bounds(d, q, q.Floor as real, step);
    assert q.Floor as real * step / step == q.Floor as real;
  }

  lemma Bounds(d: real, q: real, f: real, step: real)
    requires q * step == d && step > 0.0 && f <= q < f + 1.0
    ensures f * step <= d < f * step + step
  {
    var low, high := q - f, f + 1.0 - q;
    assert low * step >= 0.0 && high * step > 0.0;
    assert low * step == d - f * step;
    assert high * step == f * step + step - d;
  }

  const DIGITS := 10000000000000000000000000000.0

  /** Division as decimals do it: rounded to the nearest of 28 digits, halves away from zero. */
  function Nearest(a: real, b: real): real {
    if b == 0.0 then 0.0
    else if a / b >= 0.0 then NearestOf(a / b)
    else -NearestOf(-(a / b))
  }

  function NearestOf(q: real): real {
    (q * DIGITS + 0.5).Floor as real / DIGITS
  }

  lemma NearestOfIsClose(q: real)
    ensures -0.5 / DIGITS < NearestOf(q) - q <= 0.5 / DIGITS
    ensures q >= 0.0 ==> NearestOf(q) >= 0.0
  {
    var n := (q * DIGITS + 0.5).Floor;
    assert NearestOf(q) * DIGITS == n as real;
  }

  lemma NearestIsClose(a: real, b: real)
    requires b != 0.0
    ensures Abs(Nearest(a, b) - a / b) <= 0.5 / DIGITS
    ensures a / b >= 0.0 ==> Nearest(a, b) >= 0.0
  {
    NearestOfIsClose(a / b);
    NearestOfIsClose(-(a / b));
  }

  /** Quantizing with the rounded quotient. */
  function QuantizeRounded(d: real, step: real): real
    requires step != 0.0
  {
    Nearest(d, step).Floor as real * step
  }

  /** The quotient is less than half a unit of the last digit below an integer, and so is rounded up to it. */
  predicate RoundsToNext(q: real) {
    var gap := q.Floor as real + 1.0 - q;
    if q >= 0.0 then gap <= 0.5 / DIGITS else gap < 0.5 / DIGITS
  }

  lemma RoundedFloor(d: real, step: real)
    requires step != 0.0
    ensures Nearest(d, step).Floor == (d / step).Floor + if RoundsToNext(d / step) then 1 else 0
  {
    var q := d / step;
    var f := q.Floor;
    var r := q * DIGITS;
    var m := f * 10000000000000000000000000000;
    assert f as real * DIGITS == m as real;
    assert m as real <= r < m as real + DIGITS;
    if q >= 0.0 {
      var n := (r + 0.5).Floor;
      assert RoundsToNext(q) <==> n >= m + 10000000000000000000000000000;
      assert m <= n <= m + 10000000000000000000000000000;
      assert NearestOf(q) * DIGITS == n as real;
    } else {
      var n := (-q * DIGITS + 0.5).Floor;
      assert -q * DIGITS == -r;
      assert RoundsToNext(q) <==> -n >= m + 10000000000000000000000000000;
      assert m <= -n <= m + 10000000000000000000000000000;
      assert NearestOf(-q) * DIGITS == n as real;
    }
  }

  /** With the rounded quotient the result is still the largest multiple not above d, unless the quotient is rounded
      up to an integer: then it is one step too high, and above d. */
  lemma QuantizeRoundedIff(d: real, step: real)
    requires step > 0.0
    ensures QuantizeRounded(d, step) == Quantize(d, step) <==> !RoundsToNext(d / step)
    ensures QuantizeRounded(d, step) <= d <==> !RoundsToNext(d / step)
    ensures RoundsToNext(d / step) ==> QuantizeRounded(d, step) == Quantize(d, step) + step
  {
    hide Nearest, RoundsToNext;
    RoundedFloor(d, step);
    QuantizeIsLargest(d, step);
    NextMultiple((d / step).Floor, step);
  }

  lemma NextMultiple(n: int, step: real)
    ensures (n + 1) as real * step == n as real * step + step
  {
  }

  /** An amount that agrees with 1 in 28 digits is quantized to 1. */
  lemma QuantizeCanExceed()
    ensures QuantizeRounded(1.0 - 0.1 / DIGITS, 1.0) == 1.0
  {
    var d := 1.0 - 0.1 / DIGITS;
    assert (d / 1.0).Floor == 0;
    assert RoundsToNext(d / 1.0);
    QuantizeRoundedIff(d, 1.0);
  }
}
