# Trading rules of a Binance futures bot, in Dafny

This project models the trading rules of `main.js`, a Telegram bot that trades Binance USDT-margined futures for its users. The model leaves out the messaging, HTTP and indicator code around these rules and proves properties of what remains.

- **Grid** (`Grid.dfy`): exchange grids.
  - `roundTickSize` / `roundStepSize` compute `floor(x / step) * step` in exact arithmetic.
  - The stop-price clamp of `setStopLossMarket` sits on top of them.
- **TrailingStop** (`TrailingStop.dfy`): the trailing stop-loss of `monitorStopLoss`.
  - The process-wide map `trailingStopLevels`, keyed `${chatId}_${symbol}`, is a class field (`StopMonitor.levels`).
  - The per-position loop body is a method proved against a pure specification (`TickSpec`).
  - One cycle over all open positions is `Sweep`. Successive cycles for one position are `Run`.
- **Signals** (`Signals.dfy`): entry signals.
  - `calculateSupportResistance`.
  - The two candle-bounce tests.
  - `isLongSupport` and `isShortBreakout`.
  - The classification a timeframe contributes to the search.
  - The real-time variant, whose candle has only a close.
- **Entry** (`Entry.dfy`): opening positions.
  - The candidate symbols.
  - `MIN_LEVERAGE`.
  - The 90%-available balance gate.
  - The order quantity.
  - The two gate orders: `executeTrade` and the search loop.
  - The per-symbol `processingCoins` guard and the `isSearching` flag, as fields of a `Trader` class.
- **Text** (`Text.dfy`): two string helpers.
  - `escapeMarkdown` as written.
  - The trailing-zero strip of `formatSmallNumber`.

Exchange answers are parameters of the operations that use them. These are the open positions, the USDT balance, the LOT_SIZE step, the leverage bracket and the mark price. `None` stands for a failed fetch or a missing entry.

Telegram delivery results are parameters too:

- `delivered` tells whether the stop-trigger notification was sent. The `delete` of the level comes after that message inside the same `try`, so a failed delivery keeps the level.
- `reported` tells whether the error report of a failed tick reached the user. `handleError` sends it and can throw in turn. That exception reaches the outer `catch` of `monitorStopLoss` (main.js:548), so the rest of the cycle is skipped (`Sweep`'s `abandoned`).
- In the search loop, `announced` tells whether the "Potential Coin Found" message went out (main.js:702-714). That message is sent outside the inner `try`. `reported` tells whether the report of the inner `catch` (main.js:757-758) went out. When either fails, the loop ends at the outer `catch` (main.js:762). The symbol's `processingCoins` flag then stays true: no later search or real-time trade takes the symbol again (`Stalled`).

Behaviour of `main.js` that the model keeps, and that a reader might not expect:

- `!trailingStopLevels[key]` holds for a missing key and also for a stored level of 0. A zero level is therefore re-seeded. For a short this moves the stop up (`ShortZeroLevelReseeded`).
- The level of a position closed by other means stays under its key. A later position on the same symbol inherits it (`StaleLevelTriggersNewShort`).
- A delivered trigger deletes the level, although `setStopLossMarket` swallows its own errors (main.js:320-322) and its STOP_MARKET order need not fill. If the position is still open, the next cycle re-seeds from entry, and the ratchet then stores a level below the forgotten one (`TriggeredStopReseedsLower`).
- The action labelled `long (breakout)` opens a SHORT position (main.js:752-753 and 856-857).
- The guard in `setLeverage` against leverage below 50 can never abort a trade:
  - its error is swallowed by `handleError`, which returns null;
  - `getMaxLeverage` only returns values of at least 50 anyway.
- `triggerRealTimeTrade` passes `{ close: currentPrice }` as the candle. The bounce tests then compare with `undefined`/NaN and are false, so only the indicator halves of the rules can fire.
- The character class of `escapeMarkdown` contains the range `+-=`. It therefore also escapes `,`, `.`, `/`, the digits, `:`, `;` and `<`.

`main.js` has no percentage-based take-profits, no hedging and no opportunity score, and its leverage floor is `MIN_LEVERAGE = 50`. Accordingly:

- the leverage floor is 50x;
- the stop is seeded at entry ∓ entry/leverage;
- the stop ratchets to mark ∓ entry/leverage;
- entries are gated by the boolean rules, with no score.

## Model

| member | source | states |
|---|---|---|
| Grid.FloorToStep | main.js:115-123 | the floored value r satisfies r ≤ x < r + step and is a whole multiple of the step |
| Grid.FloorIsGreatest | main.js:115-123 | every grid point not above x is at most the floored value: flooring gives the greatest one |
| Grid.FloorOfGridPoint | main.js:115-123 | a value already on the grid is unchanged |
| Grid.FloorIdempotent | main.js:115-123 | flooring twice equals flooring once |
| Grid.FloorMonotone | main.js:115-123 | x ≤ y implies floor(x) ≤ floor(y) |
| Grid.FloorQuantityExample | main.js:120-123 | 12.345 with step 0.01 gives 12.34 (floored, not rounded to nearest) |
| Grid.ClampStop | main.js:303-312 | the submitted stop is on the tick grid and strictly below the current price for a long, strictly above it for a short; a floored stop already on the right side is kept; otherwise the result is the one grid point in (current − 2·tick, current − tick] for a long, in (current, current + tick] for a short |
| TrailingStop.Key | main.js:469 | the key is chatId, then '_', then the symbol |
| TrailingStop.KeyInjective | main.js:469 | keys of chat ids without '_' determine chat id and symbol |
| TrailingStop.TickSpec | main.js:469-547 | a tick triggers iff the mark crosses the level in force; it updates iff the stop is not crossed and the candidate mark ∓ entry/leverage is strictly tighter, and then stores that candidate; otherwise the level in force stays stored; the key survives unless the trigger notification was delivered |
| TrailingStop.TickTriggers | main.js:471-507 | a tick triggers iff the mark crosses the level in force (≤ for a long, ≥ for a short); it then submits that level for \|positionAmt\| and removes the key iff the notification was delivered, otherwise keeps the level |
| TrailingStop.TickSeeds | main.js:471-475 | a missing or zero level is seeded at entry − entry/leverage (long) or entry + entry/leverage (short), and stays so when nothing else happens |
| TrailingStop.TickUpdates | main.js:509-547 | a tick updates iff the stop was not crossed and mark ∓ entry/leverage is strictly tighter than the level in force, and then stores that candidate; an uncrossed tick without a tighter candidate keeps the level in force |
| TrailingStop.TickLocal | main.js:469-531 | a tick changes no key other than its own |
| TrailingStop.TickDependsOnOwnKey | main.js:469-531 | a tick's outcome depends only on the entry under its own key |
| TrailingStop.LongTickNeverLoosens | main.js:471-516 | a long's stored level never decreases while the key survives (including re-seeding of a zero level) |
| TrailingStop.ShortTickNeverLoosens | main.js:526-531 | a short's non-zero stored level never increases while the key survives |
| TrailingStop.ShortZeroLevelReseeded | main.js:471-475 | a short whose stored level is 0 gets the seed above entry: the zero-means-missing test loosens it |
| TrailingStop.StaleLevelTriggersNewShort | main.js:469-506 | a level left under a key by an earlier long triggers a new short on that symbol at once, at the old level |
| TrailingStop.Run | main.js:451-550 | successive ticks of one position change no key but its own |
| TrailingStop.TriggeredStopReseedsLower | main.js:469-547 | a long whose delivered trigger deleted level 140 is re-seeded at the next cycle and ratcheted to 139, below the forgotten level |
| TrailingStop.LongRunNeverLoosens | main.js:451-550 | over successive cycles in which the key survives, a long's stop never moves down |
| TrailingStop.ShortRunNeverLoosens | main.js:451-550 | from a non-zero stored level, over successive cycles with positive prices in which the key survives, a short's stop never moves up |
| TrailingStop.Sweep | main.js:456-549 | a cycle ticks the positions in order; it stops right after the first tick whose notification and error report both failed, and only then, and otherwise ticks every position |
| TrailingStop.SweepAbandonedStays | main.js:456-549 | once a cycle is abandoned, later positions change neither the levels nor the outcomes |
| TrailingStop.SweepCompletes | main.js:456-549 | when every failed notification was reported, the cycle visits every position |
| TrailingStop.SweepReaches | main.js:456-549 | a position is ticked whenever no earlier position had both its notification and its report fail |
| TrailingStop.SweepLocal | main.js:456-548 | a cycle leaves every key of a symbol it does not visit unchanged |
| TrailingStop.SweepLeavesOtherChats | main.js:451-469 | a cycle for one chat never touches the levels of another chat |
| TrailingStop.SweepIndependent | main.js:456-548 | with distinct symbols, every position's tick in a cycle sees the level stored before the cycle |
| TrailingStop.KeySymbolInjective | main.js:469 | within one chat, distinct symbols get distinct keys |
| TrailingStop.SweepAtOwnKey | main.js:456-548 | with distinct symbols, a cycle leaves each ticked position's key exactly as that position's own tick, on the levels before the cycle, sets it |
| TrailingStop.SweepsFollowRun | main.js:451-550 | over successive cycles, a position's key evolves as Run over that position's ticks alone, as long as every cycle reaches it |
| TrailingStop.LongCyclesNeverLoosen | main.js:451-550 | over successive cycles that reach a long position and keep its key, its stop never moves down |
| TrailingStop.ShortCyclesNeverLoosen | main.js:451-550 | over successive cycles that reach a short position and keep its non-zero key, its stop never moves up |
| TrailingStop.StopMonitor.constructor | main.js:60 | the level map starts empty |
| TrailingStop.StopMonitor.Tick | main.js:457-547 | the in-place update of the map and the outcome are exactly those of TickSpec |
| TrailingStop.StopMonitor.Monitor | main.js:451-550 | the loop over the open positions leaves the map and outcomes of Sweep, including the early stop when a notification and its error report both fail |
| Signals.TopDistinct | main.js:344-345 | at most n values, all from the input, strictly ordered, starting at its minimum (maximum); any value left out comes after the last one kept, and then n were kept |
| Signals.SupportResistance | main.js:341-348 | at most three supports and three resistances, and at least one of each for a non-empty series |
| Signals.SupportsShape | main.js:341-346 | supports: at most 3 distinct candle lows, ascending, the first is the lowest low, omitted lows lie above the third |
| Signals.ResistancesShape | main.js:341-347 | resistances: at most 3 distinct candle highs, descending, the first is the highest high, omitted highs lie below the third |
| Signals.ExtremesBoundCandle | main.js:341-348 | every candle's low is ≥ supports[0] and its high ≤ resistances[0] |
| Signals.IsBounceFromSupport | main.js:420-427 | a support bounce is a green candle with a non-zero range and its low within 1% of the level |
| Signals.IsBounceFromResistance | main.js:429-436 | a resistance bounce is a red candle with a non-zero range and its high within 1% of the level |
| Signals.SupportBounceMeans | main.js:420-427 | a support bounce iff low within 1% of the level, non-zero range, lower wick more than half the range, and a green candle |
| Signals.ResistanceBounceMeans | main.js:429-436 | a resistance bounce iff high within 1% of the level, non-zero range, upper wick more than half the range, and a red candle |
| Signals.BounceCloseHalf | main.js:420-436 | a support bounce closes above mid-candle, a resistance bounce below |
| Signals.BouncesExclusive | main.js:420-436 | no candle is both a support and a resistance bounce |
| Signals.BounceNeedsRangeAndProximity | main.js:420-436 | a flat candle never bounces, nor does one whose low (high) is further than 1% from the level |
| Signals.IsLongSupport | main.js:792-798 | a long-support signal needs a positive MACD histogram or a green candle |
| Signals.IsShortBreakout | main.js:800-805 | a breakout signal needs a positive MACD histogram or a red candle |
| Signals.Classify | main.js:673-681 | the support action iff isLongSupport holds; the breakout action iff isShortBreakout holds and isLongSupport does not; any signal needs a positive MACD histogram or a non-doji candle |
| Signals.ClassifyMeans | main.js:673-681 | a long signal is an oversold close within 1% of the lowest low or a green bounce candle near it; a breakout signal is an overbought close above the upper band or a red bounce candle near the highest high |
| Signals.RealTimeClassify | main.js:823-827 | a real-time long needs RSI < 30 and a close under the lower band, a breakout RSI > 70 and a close over the upper band, both a positive MACD histogram |
| Signals.RealTimeMatchesCandleRules | main.js:792-805 | the real-time rules equal the candle rules on any candle with that close that is no bounce |
| Signals.SideOf | main.js:750-753 | the support action opens a long and the breakout action a short |
| Entry.SymbolOf | main.js:644 | the symbol is the upper-cased key followed by USDT |
| Entry.Candidates | main.js:642-662 | exactly the non-blacklisted symbols of the mapping keys, all ending in USDT |
| Entry.AcceptMaxLeverage | main.js:193-194 | a bracket leverage is accepted iff present and at least 50, and then unchanged |
| Entry.SetLeverageAccepts | main.js:202 | setLeverage's guard passes a leverage iff getMaxLeverage would accept it |
| Entry.HasTradingBalance | main.js:563-565 | the balance gate passes when everything is available, and a positive total passes only with a positive available amount |
| Entry.OrderQuantity | main.js:746-748 | the quantity is 20 × balance / price floored to the step: within one step below it and on the step grid |
| Entry.TradeDecision | main.js:834-858 | a trade opens iff symbol info, a leverage of at least 50 and 90% available balance are all present; it opens the action's side at that leverage with the floored quantity; the first failing gate gives the reason, so a short balance after the first two gates pass aborts for insufficient balance |
| Entry.ScanDecision | main.js:716-753 | the search loop checks balance first, but opens exactly what executeTrade would; a missing USDT entry and a short balance are reported as such; past the balance gate, a missing symbol info and then a leverage below 50 are the abort reasons, in that order |
| Entry.BreakoutOpensShort | main.js:856-857 | an opened breakout trade is a short |
| Entry.AttemptFor | main.js:691-760 | a result is skipped iff its symbol is held, or else busy; otherwise the loop stalls iff the coin-found message failed, or the attempt threw and its report failed; a tried result carries the search loop's decision (ScanDecision), so an opened trade is the executeTrade decision |
| Entry.StallProcessed | main.js:699-762 | when the loop stalls on a result, its guard stays raised and the earlier attempts stand |
| Entry.StalledSymbolSkippedLater | main.js:699 | a symbol the loop stalled on stays busy, so every later search skips it |
| Entry.Trader.constructor | main.js:62-63 | no symbol is busy and no search runs |
| Entry.Trader.ExecuteTrade | main.js:834-863 | the outcome is TradeDecision; the guard ends false for the symbol and nothing else changes |
| Entry.Trader.ProcessResults | main.js:691-765 | one attempt per result, each AttemptFor of the initial guards, up to and including the first stall; afterwards the busy symbols are those busy before plus the stalled one; only symbols whose guard was raised gain an entry |
| Entry.Trader.Search | main.js:638-766 | refused while a search runs; an empty mapping searches nothing; otherwise the results are processed as ProcessResults states, stall included; the flag always ends as it started |
| Entry.Trader.CheckBalanceAndSearch | main.js:553-574 | searches iff the USDT balance was fetched with at least 90% available; the guards are untouched otherwise; a search it runs has Search's outcome: refused while one runs, nothing for an empty mapping, otherwise the processed results |
| Entry.Trader.RealTimeTrade | main.js:808-831 | skips busy or blacklisted symbols; trades iff indicators are available and a real-time rule fires, with the executeTrade decision |
| Text.EscapeMarkdown | main.js:104-106 | an escaped character becomes a backslash then the character; others are copied |
| Text.EscapeDistributes | main.js:104-106 | escaping a concatenation escapes each part, so the output is fixed character by character |
| Text.EscapeRoundTrip | main.js:104-106 | on text without backslashes, Markdown's reading of the escaped text is the text |
| Text.EscapeLength | main.js:104-106 | the output grows by one character per escaped character |
| Text.EscapeMarkdownEscapesDigits | main.js:104-106 | "1.5" becomes "\1\.\5": the range `+-=` escapes digits |
| Text.StripTrailingZeros | main.js:112 | the result is a prefix of the input; it is shorter iff the input ends in '0'; everything removed is zeros, with a dot first at most; a dot right before the removed zeros is removed too |
| Text.StripRoundTrip | main.js:110-112 | on a toFixed(8) string, padding the result back to eight decimals gives the original; the integer part is kept |
| Text.WholeValueLosesDot | main.js:110-112 | a toFixed(8) string with zero decimals becomes its integer part |
| Text.ZeroOutputs | main.js:109-112 | stripping "0.00000000" gives "0", the same as the early return for 0; "-0.00000000", a negative value that rounds to zero, gives "-0" |

## Left out

- Telegram, HTTP requests, request signing, the WebSocket, the key file, timers and `Promise.all` are left out. Their results are parameters (`Snapshot`, `Balance`, `delivered`, the list of search results) or are not modelled.
- Indicator computations (MACD, Bollinger, RSI, SMA, Ichimoku) come from an external library. Their last values are given numbers (`Indicators`).
- Floating point is not modelled: prices are exact reals. `Math.log10` / `Math.pow` rounding in `roundTickSize` / `roundStepSize` is therefore not captured, nor is `toFixed` rounding.
- Grid.FloorToStep: the step is required to be positive. A zero or malformed step (NaN or Infinity in JavaScript) is not modelled.
- TrailingStop.TickSpec: leverage is required to be non-zero. A zero leverage (Infinity in JavaScript) is not modelled.
- Entry.TradeDecision: the signal price is required to be positive.
- Entry.ToUpper: upper-cases ASCII letters only, not full Unicode `toUpperCase`.
- TrailingStop.ShortTickNeverLoosens: holds only for a non-zero stored level, because the source re-seeds a zero level, which loosens a short.
- The loss of `trailingStopLevels` on restart and the `stopLossMessages` bookkeeping are not modelled.
- Entry.Trader.ProcessResults: of the messages, only the coin-found message and the inner `catch`'s report are modelled. Messages on the short-balance and opening paths are always taken as sent, and so is the outer `catch`'s report. The five-minute retry timer on a short balance is not modelled. Nor is the nested `checkBalanceAndSearchCoin` and 60-second pause after an opened trade (main.js:755-756). While the search flag is set, that nested call starts no search: it can only schedule the retry timer.
- Interleavings of concurrent asynchronous calls are not modelled. Each method runs to completion, so what the guards exclude between suspension points is not captured.
- The results list's order is the completion order of network calls, so it is an input.
- Hedge-mode accounts, where two positions share a symbol and so a key, are covered only through `SweepIndependent`'s distinct-symbol requirement.
- `formatSmallNumber`'s early return for non-numbers and NaN is not modelled. Its number-to-string step (`toFixed(8)`) is the input of `StripTrailingZeros`.
- Position opening (`openLongPositionMarket` / `openShortPositionMarket`), `displayBalanceAndOrders` and the bot commands are outside the modelled rules.
