/**
 * Exchange price and quantity grids.
 *
 * `roundTickSize` and `roundStepSize` in main.js both compute
 * floor(x * 10^p) / 10^p with 10^p = 1/step. In exact arithmetic this is
 * floor(x / step) * step: the greatest multiple of the step that does not
 * exceed x. The stop-price clamp of `setStopLossMarket` is built on it.
 * The module also holds `Abs`, shared by the other modules.
 */
module Grid {

  /** `Math.abs`. */
  function Abs(x: real): (a: real)
    ensures a >= 0.0 && (a == x || a == -x)
  {
    if x < 0.0 then -x else x
  }

  /** v is a whole multiple of step. */
  predicate OnGrid(v: real, step: real)
    requires step > 0.0
  {
    (v / step).Floor as real == v / step
  }

  /** Flooring to the exchange grid (roundTickSize / roundStepSize). */
  function FloorToStep(x: real, step: real): (r: real)
    requires step > 0.0
    ensures r <= x < r + step
    ensures OnGrid(r, step)
  {
    var k := (x / step).Floor;
    assert k as real * step / step == k as real;
    FloorBounds(x, step, k);
    k as real * step
  }

  /** floor(x / step) * step lies in (x - step, x]. */
  lemma FloorBounds(x: real, step: real, k: int)
    requires step > 0.0
    requires k == (x / step).Floor
    ensures k as real * step <= x < k as real * step + step
  {
    var q := x / step;
    var lo := k as real;
    assert q * step == x;
    assert lo <= q < lo + 1.0;
    MulMonotone(lo, q, step);
    StrictMulMonotone(q, lo + 1.0, step);
    assert (lo + 1.0) * step == lo * step + step;
    assert x < lo * step + step;
    assert lo == k as real;
  }

  lemma MulMonotone(a: real, b: real, c: real)
    requires a <= b && c > 0.0
    ensures a * c <= b * c
  {
  }

  lemma StrictMulMonotone(a: real, b: real, c: real)
    requires a < b && c > 0.0
    ensures a * c < b * c
  {
  }

  /** The floored value is the GREATEST grid point not above x. */
  lemma FloorIsGreatest(x: real, step: real, v: real)
    requires step > 0.0
    requires OnGrid(v, step) && v <= x
    ensures v <= FloorToStep(x, step)
  {
    var j := (v / step).Floor;
    assert v == j as real * step;
    assert v / step <= x / step by {
      MulMonotone(v, x, 1.0 / step);
    }
    assert j <= (x / step).Floor;
    MulMonotone(j as real, (x / step).Floor as real, step);
  }

  /** A value already on the grid is left unchanged. */
  lemma FloorOfGridPoint(v: real, step: real)
    requires step > 0.0
    requires OnGrid(v, step)
    ensures FloorToStep(v, step) == v
  {
    var j := (v / step).Floor;
    assert v == j as real * step;
  }

  /** Flooring twice is flooring once. */
  lemma FloorIdempotent(x: real, step: real)
    requires step > 0.0
    ensures FloorToStep(FloorToStep(x, step), step) == FloorToStep(x, step)
  {
    FloorOfGridPoint(FloorToStep(x, step), step);
  }

  /** Flooring preserves order. */
  lemma FloorMonotone(x: real, y: real, step: real)
    requires step > 0.0 && x <= y
    ensures FloorToStep(x, step) <= FloorToStep(y, step)
  {
    FloorIsGreatest(y, step, FloorToStep(x, step));
  }

  /** 12.345 with a step of 0.01 becomes 12.34: flooring, not rounding to nearest. */
  lemma FloorQuantityExample()
    ensures FloorToStep(12.345, 0.01) == 12.34
  {
    assert 12.345 / 0.01 == 1234.5;
    assert (1234.5).Floor == 1234;
  }

  /**
   * The stop price `setStopLossMarket` submits: the requested stop floored to
   * the tick grid; if that lies on the wrong side of the current price (at or
   * above it for a long, at or below it for a short) it is replaced by the
   * current price moved one tick away, floored again.
   */
  function ClampStop(stop: real, tick: real, current: real, isLong: bool): (r: real)
    requires tick > 0.0
    ensures OnGrid(r, tick)
    ensures isLong ==> r < current && r <= stop
    ensures !isLong ==> r > current
    ensures isLong && FloorToStep(stop, tick) < current ==> r == FloorToStep(stop, tick)
    ensures !isLong && FloorToStep(stop, tick) > current ==> r == FloorToStep(stop, tick)
    ensures isLong && FloorToStep(stop, tick) >= current ==> current - 2.0 * tick < r <= current - tick
    ensures !isLong && FloorToStep(stop, tick) <= current ==> r <= current + tick
  {
    var floored := FloorToStep(stop, tick);
    if isLong && floored >= current then
      FloorToStep(current - tick, tick)
    else if !isLong && floored <= current then
      FloorToStep(current + tick, tick)
    else
      floored
  }
}
