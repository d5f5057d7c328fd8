/**
 * Opening positions (main.js): which symbols the search considers, the
 * leverage and balance gates, the position size, and the per-symbol
 * `processingCoins` guard and process-wide `isSearching` flag.
 *
 * Exchange answers (positions held, USDT balance, LOT_SIZE step, leverage
 * bracket) are parameters; `None` stands for a failed fetch or a missing
 * entry in the answer.
 */
module Entry {
  import opened Grid
  import opened Signals

  /** `MIN_LEVERAGE`. */
  const MinLeverage: real := 50.0

  /** `BLACKLIST`. */
  const Blacklist: seq<string> := ["CRVUSDT", "MKRUSDT", "RSRUSDT", "CETUSUSDT", "BNXUSDT", "CKBUSDT"]

  /** Margin multiplier: `margin = balance * 20`. */
  const MarginFactor: real := 20.0

  // ---------------------------------------------------------------------
  // Candidate symbols
  // ---------------------------------------------------------------------

  /** `toUpperCase` on the ASCII letters a mapping key is made of. */
  function UpperChar(c: char): (u: char)
    ensures !('a' <= u <= 'z')
    ensures 'A' <= c <= 'Z' || !('a' <= c <= 'z') ==> u == c
  {
    if 'a' <= c <= 'z' then (c as int - 32) as char else c
  }

  function ToUpper(s: string): (u: string)
    ensures |u| == |s|
    ensures forall i :: 0 <= i < |s| ==> u[i] == UpperChar(s[i])
  {
    seq(|s|, i requires 0 <= i < |s| => UpperChar(s[i]))
  }

  predicate EndsWithUsdt(s: string) {
    |s| >= 4 && s[|s| - 4..] == "USDT"
  }

  /** `key.toUpperCase() + 'USDT'`. */
  function SymbolOf(key: string): (s: string)
    ensures EndsWithUsdt(s)
    ensures |s| == |key| + 4 && s[..|key|] == ToUpper(key)
  {
    ToUpper(key) + "USDT"
  }

  /**
   * The symbols the search examines (main.js:644 and 662): each mapping key
   * upper-cased with `USDT` appended, minus the blacklisted ones, in mapping
   * order.
   */
  function Candidates(keys: seq<string>): (r: seq<string>)
    ensures |r| <= |keys|
    ensures forall s :: s in r ==> EndsWithUsdt(s) && s !in Blacklist
    ensures forall s :: s in r ==> exists k :: k in keys && SymbolOf(k) == s
    ensures forall k :: k in keys ==> (SymbolOf(k) in r <==> SymbolOf(k) !in Blacklist)
  {
    if |keys| == 0 then []
    else
      var rest := Candidates(keys[1..]);
      assert forall k :: k in keys[1..] ==> k in keys;
      assert forall k :: k in keys ==> k == keys[0] || k in keys[1..];
      if SymbolOf(keys[0]) in Blacklist then rest else [SymbolOf(keys[0])] + rest
  }

  // ---------------------------------------------------------------------
  // Gates
  // ---------------------------------------------------------------------

  /** `getMaxLeverage`: the first bracket's `initialLeverage`, accepted only when
      it is at least MinLeverage (a missing or zero value counts as none). */
  function AcceptMaxLeverage(initialLeverage: Option<real>): (r: Option<real>)
    ensures r.Some? <==> initialLeverage.Some? && initialLeverage.value >= MinLeverage
    ensures r.Some? ==> r.value == initialLeverage.value
  {
    match initialLeverage
    case Some(v) => if v >= MinLeverage then Some(v) else None
    case None => None
  }

  /** The guard of `setLeverage` (main.js:202). A refusal is only logged:
      `handleError` returns null and no caller looks at the result. */
  predicate SetLeverageAccepts(leverage: real)
    ensures SetLeverageAccepts(leverage) <==> AcceptMaxLeverage(Some(leverage)).Some?
  {
    leverage >= MinLeverage
  }

  /** The USDT entry of the futures balance. */
  datatype Balance = Balance(total: real, available: real)

  /** Trading needs at least 90% of the balance available (main.js:563-565,
      723-725, 847). */
  predicate HasTradingBalance(b: Balance)
    ensures b.total >= 0.0 && b.available >= b.total ==> HasTradingBalance(b)
    ensures HasTradingBalance(b) && b.total > 0.0 ==> b.available > 0.0
  {
    b.available >= b.total * 0.9
  }

  datatype Reason = NoSymbolInfo | LeverageBelowMinimum | InsufficientBalance | BalanceNotFound

  datatype TradeOutcome =
    | Opened(side: Side, quantity: real, leverage: real)
    | Aborted(reason: Reason)

  /** The quantity ordered: 20 times the balance in coins at the signal price,
      floored to the LOT_SIZE step. */
  function OrderQuantity(total: real, price: real, step: real): (q: real)
    requires price > 0.0 && step > 0.0
    ensures q <= MarginFactor * total / price < q + step
    ensures OnGrid(q, step)
  {
    FloorToStep(total * MarginFactor / price, step)
  }

  /**
   * `executeTrade` (main.js:834-858): symbol info first, then the leverage
   * bracket, then the balance. A trade opens exactly when all three pass, at
   * the bracket's maximum leverage, with the side the action names.
   */
  function TradeDecision(action: Action, price: real, stepSize: Option<real>,
                         initialLeverage: Option<real>, balance: Option<Balance>): (r: TradeOutcome)
    requires price > 0.0
    requires stepSize.Some? ==> stepSize.value > 0.0
    ensures r.Opened? <==>
      && stepSize.Some?
      && AcceptMaxLeverage(initialLeverage).Some?
      && balance.Some? && HasTradingBalance(balance.value)
    ensures r.Opened? ==>
      && r.side == SideOf(action)
      && r.leverage == initialLeverage.value >= MinLeverage
      && SetLeverageAccepts(r.leverage)
      && r.quantity <= MarginFactor * balance.value.total / price < r.quantity + stepSize.value
      && OnGrid(r.quantity, stepSize.value)
    ensures stepSize.None? ==> r == Aborted(NoSymbolInfo)
    ensures stepSize.Some? && AcceptMaxLeverage(initialLeverage).None? ==> r == Aborted(LeverageBelowMinimum)
    ensures (stepSize.Some? && AcceptMaxLeverage(initialLeverage).Some?
             && !(balance.Some? && HasTradingBalance(balance.value))) ==> r == Aborted(InsufficientBalance)
    ensures r.Aborted? ==> r.reason != BalanceNotFound
  {
    if stepSize.None? then Aborted(NoSymbolInfo)
    else
      match AcceptMaxLeverage(initialLeverage)
      case None => Aborted(LeverageBelowMinimum)
      case Some(leverage) =>
        if balance.None? || !HasTradingBalance(balance.value) then Aborted(InsufficientBalance)
        else Opened(SideOf(action), OrderQuantity(balance.value.total, price, stepSize.value), leverage)
  }

  /**
   * The same gates in the search loop (main.js:716-754), checked in another
   * order: balance first, then symbol info, then the leverage bracket. A
   * missing USDT entry is reported on its own. The order changes only which
   * reason an abort gives: whether and what is opened is what
   * `executeTrade` would open.
   */
  function ScanDecision(action: Action, price: real, stepSize: Option<real>,
                        initialLeverage: Option<real>, balance: Option<Balance>): (r: TradeOutcome)
    requires price > 0.0
    requires stepSize.Some? ==> stepSize.value > 0.0
    ensures r.Opened? <==> TradeDecision(action, price, stepSize, initialLeverage, balance).Opened?
    ensures r.Opened? ==> r == TradeDecision(action, price, stepSize, initialLeverage, balance)
    ensures balance.None? ==> r == Aborted(BalanceNotFound)
    ensures balance.Some? && !HasTradingBalance(balance.value) ==> r == Aborted(InsufficientBalance)
    ensures balance.Some? && HasTradingBalance(balance.value) && stepSize.None? ==> r == Aborted(NoSymbolInfo)
    ensures (balance.Some? && HasTradingBalance(balance.value) && stepSize.Some?
             && AcceptMaxLeverage(initialLeverage).None?) ==> r == Aborted(LeverageBelowMinimum)
  {
    if balance.None? then Aborted(BalanceNotFound)
    else if !HasTradingBalance(balance.value) then Aborted(InsufficientBalance)
    else if stepSize.None? then Aborted(NoSymbolInfo)
    else
      match AcceptMaxLeverage(initialLeverage)
      case None => Aborted(LeverageBelowMinimum)
      case Some(leverage) =>
        Opened(SideOf(action), OrderQuantity(balance.value.total, price, stepSize.value), leverage)
  }

  /** The label "long (breakout)" opens a short. */
  lemma BreakoutOpensShort(price: real, stepSize: Option<real>, initialLeverage: Option<real>, balance: Option<Balance>)
    requires price > 0.0
    requires stepSize.Some? ==> stepSize.value > 0.0
    ensures var r := TradeDecision(LongBreakout, price, stepSize, initialLeverage, balance);
      r.Opened? ==> r.side == Short
  {
  }

  // ---------------------------------------------------------------------
  // The search loop's per-result inputs and outcomes
  // ---------------------------------------------------------------------

  /** A search result (main.js:676, 679). */
  datatype Candidate = Candidate(symbol: string, action: Action, lastPrice: real)

  /** The exchange's answers while one result is processed: the symbols with an
      open position, the USDT balance, the LOT_SIZE step, the leverage bracket;
      and Telegram's: whether the "Potential Coin Found" message went out
      (main.js:702-714), and whether the error report of the `catch`
      (main.js:757-758) went out when the trade attempt threw. */
  datatype Snapshot = Snapshot(held: set<string>, balance: Option<Balance>,
                               stepSize: Option<real>, initialLeverage: Option<real>,
                               announced: bool, reported: bool)

  /** What the loop did with a result. `Stalled`: a message failed outside any
      `catch` that could absorb it; the loop ends there and the symbol's guard,
      raised at main.js:700, is never lowered. */
  datatype Attempt = SkippedHeld | SkippedBusy | Tried(outcome: TradeOutcome) | Stalled

  /** The aborts that the search loop reaches by throwing (main.js:719, 738,
      741); a short balance is handled without an exception. */
  predicate Throws(o: TradeOutcome) {
    o.Aborted? && o.reason != InsufficientBalance
  }

  predicate WellFormed(results: seq<Candidate>, answers: seq<Snapshot>) {
    && |answers| == |results|
    && (forall i :: 0 <= i < |results| ==> results[i].lastPrice > 0.0)
    && (forall i :: 0 <= i < |answers| ==> answers[i].stepSize.Some? ==> answers[i].stepSize.value > 0.0)
  }

  /** `processingCoins[symbol]` is truthy. */
  predicate Busy(processing: map<string, bool>, symbol: string) {
    symbol in processing && processing[symbol]
  }

  /** What the loop does with one result, given the guard flags at the start of
      the search. Flags the loop raises it lowers again within the same
      iteration unless it stalls, and it stops at a stall, so only flags raised
      elsewhere can make it skip. */
  function AttemptFor(processing: map<string, bool>, c: Candidate, a: Snapshot): (r: Attempt)
    requires c.lastPrice > 0.0
    requires a.stepSize.Some? ==> a.stepSize.value > 0.0
    ensures r == SkippedHeld <==> c.symbol in a.held
    ensures r == SkippedBusy <==> c.symbol !in a.held && Busy(processing, c.symbol)
    ensures r == Stalled <==>
      && c.symbol !in a.held && !Busy(processing, c.symbol)
      && (!a.announced
          || (!a.reported && Throws(ScanDecision(c.action, c.lastPrice, a.stepSize, a.initialLeverage, a.balance))))
    ensures r.Tried? ==> r.outcome == ScanDecision(c.action, c.lastPrice, a.stepSize, a.initialLeverage, a.balance)
    ensures r.Tried? && r.outcome.Opened? ==>
      && c.symbol !in a.held && !Busy(processing, c.symbol) && a.announced
      && r.outcome == TradeDecision(c.action, c.lastPrice, a.stepSize, a.initialLeverage, a.balance)
  {
    if c.symbol in a.held then SkippedHeld
    else if Busy(processing, c.symbol) then SkippedBusy
    else if !a.announced then Stalled
    else
      var outcome := ScanDecision(c.action, c.lastPrice, a.stepSize, a.initialLeverage, a.balance);
      if Throws(outcome) && !a.reported then Stalled else Tried(outcome)
  }

  /** The loop raised the result's guard: it tried the result or stalled on it. */
  predicate Raised(a: Attempt) {
    a.Tried? || a.Stalled?
  }

  /** The guard flags after the loop: busy are the symbols busy before plus the
      one the loop stalled on, if any; the only new entries are symbols whose
      guard the loop raised. */
  ghost predicate GuardsAfter(before: map<string, bool>, after: map<string, bool>,
                              results: seq<Candidate>, attempts: seq<Attempt>)
    requires |attempts| <= |results|
  {
    && (forall k :: Busy(after, k) <==>
          Busy(before, k) || exists j :: 0 <= j < |attempts| && attempts[j].Stalled? && results[j].symbol == k)
    && (forall k :: k in after <==>
          k in before || exists j :: 0 <= j < |attempts| && Raised(attempts[j]) && results[j].symbol == k)
  }

  /** What the loop over the results leaves: one attempt per result, in order,
      up to and including the first stall, and the guards as GuardsAfter says. */
  ghost predicate Processed(before: map<string, bool>, after: map<string, bool>,
                            results: seq<Candidate>, answers: seq<Snapshot>, attempts: seq<Attempt>)
    requires WellFormed(results, answers)
  {
    && |attempts| <= |results|
    && (forall j :: 0 <= j < |attempts| ==> attempts[j] == AttemptFor(before, results[j], answers[j]))
    && (forall j :: 0 <= j < |attempts| - 1 ==> !attempts[j].Stalled?)
    && (|attempts| == |results| || (|attempts| > 0 && attempts[|attempts| - 1].Stalled?))
    && GuardsAfter(before, after, results, attempts)
  }

  /** The loop's state when it stalls on result i: the guard it raised stays. */
  lemma StallProcessed(before: map<string, bool>, p: map<string, bool>,
                       results: seq<Candidate>, answers: seq<Snapshot>, attempts: seq<Attempt>, i: nat)
    requires WellFormed(results, answers)
    requires i < |results| && |attempts| == i + 1
    requires forall j :: 0 <= j <= i ==> attempts[j] == AttemptFor(before, results[j], answers[j])
    requires forall j :: 0 <= j < i ==> !attempts[j].Stalled?
    requires attempts[i].Stalled?
    requires forall k :: Busy(p, k) <==> Busy(before, k)
    requires forall k :: k in p <==>
      k in before || exists j :: 0 <= j < i && Raised(attempts[j]) && results[j].symbol == k
    ensures Processed(before, p[results[i].symbol := true], results, answers, attempts)
  {
  }

  /** A stalled symbol stays busy, so every later search skips it (main.js:699),
      and so does every real-time trade (main.js:811): it is never traded again
      until the process restarts. */
  lemma StalledSymbolSkippedLater(before: map<string, bool>, after: map<string, bool>,
                                  results: seq<Candidate>, answers: seq<Snapshot>, attempts: seq<Attempt>,
                                  j: nat, c: Candidate, a: Snapshot)
    requires WellFormed(results, answers)
    requires Processed(before, after, results, answers, attempts)
    requires j < |attempts| && attempts[j].Stalled? && c.symbol == results[j].symbol
    requires c.lastPrice > 0.0 && (a.stepSize.Some? ==> a.stepSize.value > 0.0)
    ensures Busy(after, c.symbol)
    ensures AttemptFor(after, c, a) == SkippedHeld || AttemptFor(after, c, a) == SkippedBusy
  {
  }

  datatype SearchOutcome =
    | AlreadySearching
    | EmptyMapping
    | Searched(attempts: seq<Attempt>)

  datatype BalanceCheck =
    | NoBalance
    | Deferred      // available below 90%: retried by a timer after five minutes
    | Ran(search: SearchOutcome)

  datatype RealTimeOutcome =
    | SkippedSymbol   // guard raised or symbol blacklisted
    | NoData          // candles or indicators unavailable
    | NoSignal
    | Traded(outcome: TradeOutcome)

  /** The process-wide `processingCoins` map and `isSearching` flag. */
  class Trader {
    var processing: map<string, bool>
    var searching: bool

    constructor ()
      ensures processing == map[] && !searching
    {
      processing := map[];
      searching := false;
    }

    /** `executeTrade`: the guard is raised on entry and lowered in `finally`,
        whatever happens in between. */
    method ExecuteTrade(symbol: string, action: Action, price: real, stepSize: Option<real>,
                        initialLeverage: Option<real>, balance: Option<Balance>)
      returns (outcome: TradeOutcome)
      requires price > 0.0
      requires stepSize.Some? ==> stepSize.value > 0.0
      modifies this
      ensures outcome == TradeDecision(action, price, stepSize, initialLeverage, balance)
      ensures processing == old(processing)[symbol := false]
      ensures searching == old(searching)
    {
      processing := processing[symbol := true];
      if stepSize.None? {
        outcome := Aborted(NoSymbolInfo);
      } else {
        var maxLeverage := AcceptMaxLeverage(initialLeverage);
        if maxLeverage.None? {
          outcome := Aborted(LeverageBelowMinimum);
        } else if balance.None? || balance.value.available < balance.value.total * 0.9 {
          outcome := Aborted(InsufficientBalance);
        } else {
          var margin := balance.value.total * MarginFactor;
          var quantity := FloorToStep(margin / price, stepSize.value);
          outcome := Opened(SideOf(action), quantity, maxLeverage.value);
        }
      }
      processing := processing[symbol := false];
    }

    /** The loop over search results (main.js:691-761). A stall throws out of
        the loop to the outer `catch` (main.js:762), so the loop stops there. */
    method ProcessResults(results: seq<Candidate>, answers: seq<Snapshot>) returns (attempts: seq<Attempt>)
      requires WellFormed(results, answers)
      modifies this
      ensures Processed(old(processing), processing, results, answers, attempts)
      ensures searching == old(searching)
    {
      attempts := [];
      for i := 0 to |results|
        invariant |attempts| == i
        invariant forall j :: 0 <= j < i ==> attempts[j] == AttemptFor(old(processing), results[j], answers[j])
        invariant forall j :: 0 <= j < i ==> !attempts[j].Stalled?
        invariant forall k :: Busy(processing, k) <==> Busy(old(processing), k)
        invariant forall k :: k in processing <==>
          k in old(processing) || exists j :: 0 <= j < i && Raised(attempts[j]) && results[j].symbol == k
        invariant searching == old(searching)
      {
        var c, a := results[i], answers[i];
        if c.symbol in a.held {
          attempts := attempts + [SkippedHeld];
          continue;
        }
        if c.symbol in processing && processing[c.symbol] {
          attempts := attempts + [SkippedBusy];
          continue;
        }
        var outcome := ScanDecision(c.action, c.lastPrice, a.stepSize, a.initialLeverage, a.balance);
        // The guard is raised at main.js:700; a failed coin-found message, or a
        // failed report of a thrown attempt, leaves it raised (main.js:762).
        if !a.announced || (Throws(outcome) && !a.reported) {
          attempts := attempts + [Stalled];
          StallProcessed(old(processing), processing, results, answers, attempts, i);
          processing := processing[c.symbol := true];
          return;
        }
        processing := processing[c.symbol := true];
        processing := processing[c.symbol := false];  // main.js:760
        attempts := attempts + [Tried(outcome)];
      }
    }

    /** `searchCoinWithIndicators`: refused while another search runs; the flag
        is lowered in `finally`. `results` are the signals found for the
        candidate symbols, in the order their lookups completed. */
    method Search(mappingKeys: seq<string>, results: seq<Candidate>, answers: seq<Snapshot>)
      returns (r: SearchOutcome)
      requires WellFormed(results, answers)
      requires forall i :: 0 <= i < |results| ==> results[i].symbol in Candidates(mappingKeys)
      modifies this
      ensures searching == old(searching)
      ensures old(searching) ==> r == AlreadySearching && processing == old(processing)
      ensures !old(searching) && |mappingKeys| == 0 ==> r == EmptyMapping && processing == old(processing)
      ensures !old(searching) && |mappingKeys| > 0 ==>
        r.Searched? && Processed(old(processing), processing, results, answers, r.attempts)
    {
      if searching {
        return AlreadySearching;
      }
      searching := true;
      if |mappingKeys| == 0 {
        r := EmptyMapping;
      } else {
        var attempts := ProcessResults(results, answers);
        r := Searched(attempts);
      }
      searching := false;
    }

    /** `checkBalanceAndSearchCoin`: search only with at least 90% of the
        balance available. */
    method CheckBalanceAndSearch(balance: Option<Balance>, mappingKeys: seq<string>,
                                 results: seq<Candidate>, answers: seq<Snapshot>)
      returns (r: BalanceCheck)
      requires WellFormed(results, answers)
      requires forall i :: 0 <= i < |results| ==> results[i].symbol in Candidates(mappingKeys)
      modifies this
      ensures searching == old(searching)
      ensures r.Ran? <==> balance.Some? && HasTradingBalance(balance.value)
      ensures r == NoBalance <==> balance.None?
      ensures !r.Ran? ==> processing == old(processing)
      ensures r.Ran? && old(searching) ==> r.search == AlreadySearching && processing == old(processing)
      ensures r.Ran? && !old(searching) && |mappingKeys| == 0 ==>
        r.search == EmptyMapping && processing == old(processing)
      ensures r.Ran? && !old(searching) && |mappingKeys| > 0 ==>
        r.search.Searched? && Processed(old(processing), processing, results, answers, r.search.attempts)
    {
      if balance.None? {
        return NoBalance;
      }
      if balance.value.available >= balance.value.total * 0.9 {
        var s := Search(mappingKeys, results, answers);
        r := Ran(s);
      } else {
        r := Deferred;
      }
    }

    /** One user's turn in `triggerRealTimeTrade` (main.js:809-831) for a price
        update of `symbol`. `ind` is None when candles or indicators could not
        be had; `lv` are the levels of the 1h candles. */
    method RealTimeTrade(symbol: string, price: real, ind: Option<Indicators>, lv: Levels,
                         stepSize: Option<real>, initialLeverage: Option<real>, balance: Option<Balance>)
      returns (r: RealTimeOutcome)
      requires price > 0.0
      requires stepSize.Some? ==> stepSize.value > 0.0
      requires ind.Some? ==> |lv.supports| > 0 && |lv.resistances| > 0
      modifies this
      ensures searching == old(searching)
      ensures r == SkippedSymbol <==> Busy(old(processing), symbol) || symbol in Blacklist
      ensures r.Traded? <==>
        (!Busy(old(processing), symbol) && symbol !in Blacklist
         && ind.Some? && RealTimeClassify(ind.value, price, lv).Some?)
      ensures r.Traded? ==> r.outcome == TradeDecision(RealTimeClassify(ind.value, price, lv).value,
                                                      price, stepSize, initialLeverage, balance)
      ensures r.Traded? ==> processing == old(processing)[symbol := false]
      ensures !r.Traded? ==> processing == old(processing)
    {
      if (symbol in processing && processing[symbol]) || symbol in Blacklist {
        return SkippedSymbol;
      }
      if ind.None? {
        return NoData;
      }
      var signal := RealTimeClassify(ind.value, price, lv);
      if signal.None? {
        return NoSignal;
      }
      var outcome := ExecuteTrade(symbol, signal.value, price, stepSize, initialLeverage, balance);
      r := Traded(outcome);
    }
  }
}
