/**
 * Entry signals of the coin search (main.js): support and resistance levels
 * from a candle series, the two candle-bounce tests, and the two composite
 * entry rules. Indicator values (last MACD histogram, Bollinger bands, RSI,
 * SMA) come from an external library and are taken as given numbers.
 */
module Signals {
  import opened Grid

  datatype Candle = Candle(open: real, high: real, low: real, close: real)

  /** The last values of the indicators, as `calculateIndicators` returns them. */
  datatype Indicators = Indicators(
    macdHistogram: real,
    bollingerLower: real,
    bollingerUpper: real,
    rsi: real,
    sma: real)

  datatype Levels = Levels(supports: seq<real>, resistances: seq<real>)

  /** The action label a signal carries, and the side the bot then opens. */
  datatype Action = LongSupport | LongBreakout
  datatype Side = Long | Short

  // ---------------------------------------------------------------------
  // Support and resistance: distinct values, sorted, first three
  // ---------------------------------------------------------------------

  /** a comes strictly before b: ascending for supports, descending for resistances. */
  predicate Before(a: real, b: real, ascending: bool) {
    if ascending then a < b else a > b
  }

  /** The first value of s in the chosen order (its minimum or its maximum). */
  function Extreme(s: seq<real>, ascending: bool): (m: real)
    requires |s| > 0
    ensures m in s
    ensures forall x :: x in s ==> m == x || Before(m, x, ascending)
  {
    if |s| == 1 then s[0]
    else
      var rest := Extreme(s[1..], ascending);
      assert forall x :: x in s[1..] ==> x in s;
      assert forall x :: x in s ==> x == s[0] || x in s[1..];
      if Before(s[0], rest, ascending) then s[0] else rest
  }

  /** s without any occurrence of v. */
  function Without(s: seq<real>, v: real): (r: seq<real>)
    ensures forall x :: x in r <==> x in s && x != v
    ensures |r| <= |s|
    ensures v in s ==> |r| < |s|
  {
    if |s| == 0 then []
    else if s[0] == v then Without(s[1..], v)
    else [s[0]] + Without(s[1..], v)
  }

  /**
   * `[...new Set(values)].sort(order).slice(0, n)`: the n first distinct values
   * of s in the chosen order. Each result value comes from s, the result is
   * strictly ordered (so without repeats), and it skips nothing: a value of s
   * that is left out comes after the last of the result, which is then full.
   */
  function TopDistinct(s: seq<real>, n: nat, ascending: bool): (r: seq<real>)
    ensures |r| <= n
    ensures forall x :: x in r ==> x in s
    ensures forall i, j :: 0 <= i < j < |r| ==> Before(r[i], r[j], ascending)
    ensures forall x :: x in s && x !in r ==>
      |r| == n && (n > 0 ==> Before(r[n - 1], x, ascending))
    ensures n > 0 && |s| > 0 ==> |r| > 0 && r[0] == Extreme(s, ascending)
    decreases |s|
  {
    if n == 0 || |s| == 0 then []
    else
      var m := Extreme(s, ascending);
      var rest := TopDistinct(Without(s, m), n - 1, ascending);
      assert forall x :: x in rest ==> x in s && x != m && Before(m, x, ascending);
      var r := [m] + rest;
      assert forall i :: 0 < i < |r| ==> r[i] == rest[i - 1];
      assert forall x :: x in r <==> x == m || x in rest;
      r
  }

  function Lows(candles: seq<Candle>): (r: seq<real>)
    ensures |r| == |candles| && forall i :: 0 <= i < |r| ==> r[i] == candles[i].low
  {
    if |candles| == 0 then [] else [candles[0].low] + Lows(candles[1..])
  }

  function Highs(candles: seq<Candle>): (r: seq<real>)
    ensures |r| == |candles| && forall i :: 0 <= i < |r| ==> r[i] == candles[i].high
  {
    if |candles| == 0 then [] else [candles[0].high] + Highs(candles[1..])
  }

  /** `calculateSupportResistance`: the three lowest distinct lows ascending,
      the three highest distinct highs descending. */
  function SupportResistance(candles: seq<Candle>): (lv: Levels)
    ensures |lv.supports| <= 3 && |lv.resistances| <= 3
    ensures |candles| > 0 ==> |lv.supports| > 0 && |lv.resistances| > 0
  {
    Levels(TopDistinct(Lows(candles), 3, true), TopDistinct(Highs(candles), 3, false))
  }

  /** The supports `calculateSupportResistance` returns: at most three lows of
      the series, strictly ascending, starting at the lowest low, and every low
      left out lies above all three. */
  lemma SupportsShape(candles: seq<Candle>)
    ensures var s := SupportResistance(candles).supports;
      && |s| <= 3
      && (forall i, j :: 0 <= i < j < |s| ==> s[i] < s[j])
      && (forall i :: 0 <= i < |s| ==> exists k :: 0 <= k < |candles| && candles[k].low == s[i])
      && (|candles| > 0 ==> |s| > 0)
      && (forall k :: 0 <= k < |candles| ==> s[0] <= candles[k].low)
      && (forall k :: 0 <= k < |candles| && candles[k].low !in s ==> |s| == 3 && s[2] < candles[k].low)
  {
    var lows := Lows(candles);
    var s := SupportResistance(candles).supports;
    forall i | 0 <= i < |s|
      ensures exists k :: 0 <= k < |candles| && candles[k].low == s[i]
    {
      assert s[i] in lows;
    }
    forall k | 0 <= k < |candles|
      ensures s[0] <= candles[k].low
    {
      assert lows[k] in lows;
    }
    forall k | 0 <= k < |candles| && candles[k].low !in s
      ensures |s| == 3 && s[2] < candles[k].low
    {
      assert lows[k] in lows;
    }
  }

  /** The resistances: at most three highs of the series, strictly descending,
      starting at the highest high, and every high left out lies below all three. */
  lemma ResistancesShape(candles: seq<Candle>)
    ensures var r := SupportResistance(candles).resistances;
      && |r| <= 3
      && (forall i, j :: 0 <= i < j < |r| ==> r[i] > r[j])
      && (forall i :: 0 <= i < |r| ==> exists k :: 0 <= k < |candles| && candles[k].high == r[i])
      && (|candles| > 0 ==> |r| > 0)
      && (forall k :: 0 <= k < |candles| ==> candles[k].high <= r[0])
      && (forall k :: 0 <= k < |candles| && candles[k].high !in r ==> |r| == 3 && r[2] > candles[k].high)
  {
    var highs := Highs(candles);
    var r := SupportResistance(candles).resistances;
    forall i | 0 <= i < |r|
      ensures exists k :: 0 <= k < |candles| && candles[k].high == r[i]
    {
      assert r[i] in highs;
    }
    forall k | 0 <= k < |candles|
      ensures candles[k].high <= r[0]
    {
      assert highs[k] in highs;
    }
    forall k | 0 <= k < |candles| && candles[k].high !in r
      ensures |r| == 3 && r[2] > candles[k].high
    {
      assert highs[k] in highs;
    }
  }

  // ---------------------------------------------------------------------
  // Bounce tests
  // ---------------------------------------------------------------------

  function Min(a: real, b: real): real { if a <= b then a else b }
  function Max(a: real, b: real): real { if a >= b then a else b }

  /** `isBounceFromSupport`. */
  predicate IsBounceFromSupport(c: Candle, level: real)
    ensures IsBounceFromSupport(c, level) ==>
      c.close > c.open && c.high != c.low && Abs(c.low - level) <= level * 0.01
  {
    var tolerance := level * 0.01;
    if Abs(c.low - level) > tolerance then false
    else
      var range := c.high - c.low;
      if range == 0.0 then false
      else
        var lowerWick := Min(c.open, c.close) - c.low;
        lowerWick / range > 0.5 && c.close > c.open
  }

  /** `isBounceFromResistance`. */
  predicate IsBounceFromResistance(c: Candle, level: real)
    ensures IsBounceFromResistance(c, level) ==>
      c.close < c.open && c.high != c.low && Abs(c.high - level) <= level * 0.01
  {
    var tolerance := level * 0.01;
    if Abs(c.high - level) > tolerance then false
    else
      var range := c.high - c.low;
      if range == 0.0 then false
      else
        var upperWick := c.high - Max(c.open, c.close);
        upperWick / range > 0.5 && c.close < c.open
  }

  /** For a candle whose high is not below its low: a support bounce is a green
      candle with its low within 1% of the level, a non-zero range, and a lower
      wick longer than half that range. */
  lemma SupportBounceMeans(c: Candle, level: real)
    requires c.low <= c.high
    ensures IsBounceFromSupport(c, level) <==>
      && Abs(c.low - level) <= level / 100.0
      && c.low < c.high
      && 2.0 * (Min(c.open, c.close) - c.low) > c.high - c.low
      && c.close > c.open
  {
    var range := c.high - c.low;
    if range > 0.0 {
      WickFraction(Min(c.open, c.close) - c.low, range);
    }
  }

  /** The mirror image for resistance. */
  lemma ResistanceBounceMeans(c: Candle, level: real)
    requires c.low <= c.high
    ensures IsBounceFromResistance(c, level) <==>
      && Abs(c.high - level) <= level / 100.0
      && c.low < c.high
      && 2.0 * (c.high - Max(c.open, c.close)) > c.high - c.low
      && c.close < c.open
  {
    var range := c.high - c.low;
    if range > 0.0 {
      WickFraction(c.high - Max(c.open, c.close), range);
    }
  }

  lemma WickFraction(wick: real, range: real)
    requires range > 0.0
    ensures wick / range > 0.5 <==> 2.0 * wick > range
  {
    var q := wick / range;
    assert q * range == wick;
    if q > 0.5 {
      assert (q - 0.5) * range > 0.0;
    } else {
      assert (0.5 - q) * range >= 0.0;
    }
  }

  /** A support bounce closes in the upper half of the candle, a resistance
      bounce in the lower half. */
  lemma BounceCloseHalf(c: Candle, level: real)
    requires c.low <= c.high
    ensures IsBounceFromSupport(c, level) ==> c.close > (c.high + c.low) / 2.0
    ensures IsBounceFromResistance(c, level) ==> c.close < (c.high + c.low) / 2.0
  {
    SupportBounceMeans(c, level);
    ResistanceBounceMeans(c, level);
  }

  /** A candle is never both a support bounce and a resistance bounce. */
  lemma BouncesExclusive(c: Candle, s: real, r: real)
    ensures !(IsBounceFromSupport(c, s) && IsBounceFromResistance(c, r))
  {
  }

  /** Neither bounce is possible on a candle with no range, nor for a level the
      candle's low (high) is more than 1% of the level away from. */
  lemma BounceNeedsRangeAndProximity(c: Candle, level: real)
    ensures c.high == c.low ==> !IsBounceFromSupport(c, level) && !IsBounceFromResistance(c, level)
    ensures Abs(c.low - level) > level * 0.01 ==> !IsBounceFromSupport(c, level)
    ensures Abs(c.high - level) > level * 0.01 ==> !IsBounceFromResistance(c, level)
  {
  }

  // ---------------------------------------------------------------------
  // Entry rules
  // ---------------------------------------------------------------------

  /** The indicator half of `isLongSupport`: rising MACD histogram, close under
      the lower band and the SMA, RSI under 30, close within 1% of the support. */
  predicate OversoldNearSupport(ind: Indicators, close: real, support: real) {
    ind.macdHistogram > 0.0 && close < ind.bollingerLower && ind.rsi < 30.0 && close < ind.sma
    && close >= support * 0.99 && close <= support * 1.01
  }

  /** The indicator half of `isShortBreakout`: rising MACD histogram, close over
      the upper band and the SMA, RSI over 70. */
  predicate OverboughtAboveBand(ind: Indicators, close: real) {
    ind.macdHistogram > 0.0 && close > ind.bollingerUpper && ind.rsi > 70.0 && close > ind.sma
  }

  /** `isLongSupport`, with the lowest support supports[0]. Its callers only
      reach it with a non-empty candle series, so supports is never empty. */
  predicate IsLongSupport(ind: Indicators, c: Candle, supports: seq<real>)
    requires |supports| > 0
    ensures IsLongSupport(ind, c, supports) ==> ind.macdHistogram > 0.0 || c.close > c.open
  {
    OversoldNearSupport(ind, c.close, supports[0]) || IsBounceFromSupport(c, supports[0])
  }

  /** `isShortBreakout`, with the highest resistance resistances[0]. */
  predicate IsShortBreakout(ind: Indicators, c: Candle, resistances: seq<real>)
    requires |resistances| > 0
    ensures IsShortBreakout(ind, c, resistances) ==> ind.macdHistogram > 0.0 || c.close < c.open
  {
    OverboughtAboveBand(ind, c.close) || IsBounceFromResistance(c, resistances[0])
  }

  /** The result a timeframe contributes to the search (main.js:675-681):
      the support rule is tried first. */
  function Classify(ind: Indicators, c: Candle, lv: Levels): (r: Option<Action>)
    requires |lv.supports| > 0 && |lv.resistances| > 0
    ensures r == Some(LongSupport) <==> IsLongSupport(ind, c, lv.supports)
    ensures r == Some(LongBreakout) <==> !IsLongSupport(ind, c, lv.supports) && IsShortBreakout(ind, c, lv.resistances)
    ensures r.Some? ==> ind.macdHistogram > 0.0 || c.close != c.open
  {
    if IsLongSupport(ind, c, lv.supports) then Some(LongSupport)
    else if IsShortBreakout(ind, c, lv.resistances) then Some(LongBreakout)
    else None
  }

  /** The same rules in `triggerRealTimeTrade` (main.js:823-827), which passes
      `{ close: currentPrice }` as the candle: its low, high and open are
      undefined, every comparison in the bounce tests is with NaN and false, so
      only the indicator halves can fire. */
  function RealTimeClassify(ind: Indicators, price: real, lv: Levels): (r: Option<Action>)
    requires |lv.supports| > 0 && |lv.resistances| > 0
    ensures r == Some(LongSupport) ==> ind.rsi < 30.0 && price < ind.bollingerLower
    ensures r == Some(LongBreakout) ==> ind.rsi > 70.0 && price > ind.bollingerUpper
    ensures r.Some? ==> ind.macdHistogram > 0.0
  {
    if OversoldNearSupport(ind, price, lv.supports[0]) then Some(LongSupport)
    else if OverboughtAboveBand(ind, price) then Some(LongBreakout)
    else None
  }

  /** The real-time rules are the candle rules on a candle with that close
      which is neither kind of bounce. */
  lemma RealTimeMatchesCandleRules(ind: Indicators, c: Candle, lv: Levels)
    requires |lv.supports| > 0 && |lv.resistances| > 0
    requires !IsBounceFromSupport(c, lv.supports[0]) && !IsBounceFromResistance(c, lv.resistances[0])
    ensures RealTimeClassify(ind, c.close, lv) == Classify(ind, c, lv)
  {
  }

  datatype Option<T> = None | Some(value: T)

  /** The side each action opens: the breakout action, despite its label,
      opens a short (main.js:752-753, 856-857). */
  function SideOf(a: Action): (s: Side)
    ensures s == Long <==> a == LongSupport
    ensures a == LongBreakout ==> s == Short
  {
    match a
    case LongSupport => Long
    case LongBreakout => Short
  }

  /** What a classified signal means for a candle of the series the levels
      come from (ExtremesBoundCandle gives the two bounds required here): a long
      entry is an oversold close within 1% of the lowest low, or a green candle
      whose low sits within 1% above the lowest low; a short entry is an
      overbought close above the upper band, or a red candle whose high sits
      within 1% below the highest high. */
  lemma ClassifyMeans(ind: Indicators, c: Candle, lv: Levels)
    requires |lv.supports| > 0 && |lv.resistances| > 0
    requires c.low <= c.high
    requires lv.supports[0] <= c.low && c.high <= lv.resistances[0]
    ensures var r := Classify(ind, c, lv);
      var s0, r0 := lv.supports[0], lv.resistances[0];
      && (r == Some(LongSupport) ==>
            (ind.rsi < 30.0 && ind.macdHistogram > 0.0 && s0 * 0.99 <= c.close <= s0 * 1.01)
            || (c.close > c.open && s0 <= c.low <= s0 + s0 / 100.0))
      && (r == Some(LongBreakout) ==>
            (ind.rsi > 70.0 && ind.macdHistogram > 0.0 && c.close > ind.bollingerUpper)
            || (c.close < c.open && r0 - r0 / 100.0 <= c.high <= r0))
  {
    var r := Classify(ind, c, lv);
    if r == Some(LongSupport) && IsBounceFromSupport(c, lv.supports[0]) {
      SupportBounceMeans(c, lv.supports[0]);
    }
    if r == Some(LongBreakout) && IsBounceFromResistance(c, lv.resistances[0]) {
      ResistanceBounceMeans(c, lv.resistances[0]);
    }
  }

  /** Every candle's low is at least the first support and its high at most
      the first resistance. */
  lemma ExtremesBoundCandle(candles: seq<Candle>, k: nat)
    requires k < |candles|
    ensures var lv := SupportResistance(candles);
      && |lv.supports| > 0 && |lv.resistances| > 0
      && lv.supports[0] <= candles[k].low && candles[k].high <= lv.resistances[0]
  {
    var lows, highs := Lows(candles), Highs(candles);
    assert lows[k] in lows && highs[k] in highs;
  }
}
