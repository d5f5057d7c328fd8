/**
 * The trailing stop-loss of `monitorStopLoss` (main.js).
 *
 * A process-wide map `trailingStopLevels`, keyed `${chatId}_${symbol}`, holds
 * one stop level per open position. Every monitoring cycle walks the open
 * positions the exchange reports and, for each one:
 *   - seeds the level from entry price and leverage when there is none (or
 *     when the stored level is 0, which JavaScript's `!level` also treats as
 *     missing);
 *   - if the mark price has crossed the level, submits a stop order at the
 *     stored level for |positionAmt| and deletes the key once the user has
 *     been notified;
 *   - otherwise moves the level to mark -/+ entry/leverage, but only in the
 *     direction that tightens it.
 * When a notification fails and so does the error report about it, the
 * exception ends the whole cycle: later positions wait for the next one.
 *
 * TickSpec is the specification of that per-position body, Sweep of one
 * cycle over all positions and Run of successive cycles for one position;
 * StopMonitor is the mutable map with methods proved against them.
 */
module TrailingStop {
  import opened Grid

  /** An open position as the exchange reports it (positionRisk). */
  datatype Position = Position(
    symbol: string,
    entryPrice: real,
    markPrice: real,
    leverage: real,
    positionAmt: real)

  /** What one tick does for one position. */
  datatype TickOutcome =
    | Triggered(price: real, quantity: real)  // stop order submitted at the stored level
    | Updated(level: real)                    // level ratcheted to a tighter value
    | NoChange

  /** The new map and the outcome of one tick. */
  datatype Step = Step(levels: map<string, real>, outcome: TickOutcome)

  /** The map key `${chatId}_${symbol}`. */
  function Key(chatId: string, symbol: string): (k: string)
    ensures |k| == |chatId| + 1 + |symbol|
    ensures k[..|chatId|] == chatId && k[|chatId|] == '_' && k[|chatId| + 1..] == symbol
  {
    chatId + "_" + symbol
  }

  /** A position is long when its signed amount is positive. */
  predicate IsLong(p: Position) {
    p.positionAmt > 0.0
  }

  /** The initial level: one leverage-fraction of the entry price away from entry. */
  function SeedLevel(p: Position): real
    requires p.leverage != 0.0
  {
    if IsLong(p) then p.entryPrice - p.entryPrice / p.leverage
    else p.entryPrice + p.entryPrice / p.leverage
  }

  /** The level the ratchet proposes at the current mark price. */
  function Candidate(p: Position): real
    requires p.leverage != 0.0
  {
    if IsLong(p) then p.markPrice - p.entryPrice / p.leverage
    else p.markPrice + p.entryPrice / p.leverage
  }

  /** `!trailingStopLevels[key]`: absent, or stored as 0. */
  predicate NeedsSeed(levels: map<string, real>, key: string) {
    key !in levels || levels[key] == 0.0
  }

  /** The mark price has reached the stop on the losing side. */
  predicate Crossed(p: Position, level: real) {
    if IsLong(p) then p.markPrice <= level else p.markPrice >= level
  }

  /** The proposed level is strictly tighter than the current one. */
  predicate Tighter(p: Position, proposed: real, level: real) {
    if IsLong(p) then proposed > level else proposed < level
  }

  /**
   * One position's tick. `delivered` is whether the trigger notification was
   * sent: the `delete` follows the message in the same `try`, so a failed
   * delivery leaves the level in place.
   */
  function TickSpec(levels: map<string, real>, key: string, p: Position, delivered: bool): (s: Step)
    requires p.leverage != 0.0
    ensures s.outcome.Triggered? <==> Crossed(p, LevelInForce(levels, key, p))
    ensures s.outcome.Updated? <==>
      !Crossed(p, LevelInForce(levels, key, p)) && Tighter(p, Candidate(p), LevelInForce(levels, key, p))
    ensures s.outcome.Updated? ==> s.outcome.level == Candidate(p) && key in s.levels && s.levels[key] == s.outcome.level
    ensures s.outcome.NoChange? ==> key in s.levels && s.levels[key] == LevelInForce(levels, key, p)
    ensures key in s.levels <==> !(delivered && s.outcome.Triggered?)
  {
    var seeded := if NeedsSeed(levels, key) then levels[key := SeedLevel(p)] else levels;
    var level := seeded[key];
    if Crossed(p, level) then
      Step(if delivered then seeded - {key} else seeded, Triggered(level, Abs(p.positionAmt)))
    else if Tighter(p, Candidate(p), level) then
      Step(seeded[key := Candidate(p)], Updated(Candidate(p)))
    else
      Step(seeded, NoChange)
  }

  /** The level in force for a tick: the stored one, or the seed. */
  function LevelInForce(levels: map<string, real>, key: string, p: Position): real
    requires p.leverage != 0.0
  {
    if NeedsSeed(levels, key) then SeedLevel(p) else levels[key]
  }

  // ---------------------------------------------------------------------
  // Properties of one tick
  // ---------------------------------------------------------------------

  /** A tick triggers exactly when the mark crosses the level in force, and then
      submits that level for the absolute position amount and, once the user
      is notified, forgets the key; no ratchet runs. */
  lemma TickTriggers(levels: map<string, real>, key: string, p: Position, delivered: bool)
    requires p.leverage != 0.0
    ensures var s := TickSpec(levels, key, p, delivered);
      && (s.outcome.Triggered? <==> Crossed(p, LevelInForce(levels, key, p)))
      && (s.outcome.Triggered? ==>
            && s.outcome.price == LevelInForce(levels, key, p)
            && s.outcome.quantity == Abs(p.positionAmt)
            && (p.positionAmt != 0.0 ==> s.outcome.quantity > 0.0)
            && (delivered <==> key !in s.levels)
            && (!delivered ==> s.levels[key] == LevelInForce(levels, key, p)))
  {
  }

  /** A missing or zero level is seeded from entry and leverage, and a tick that
      neither triggers nor ratchets leaves exactly the seed stored. */
  lemma TickSeeds(levels: map<string, real>, key: string, p: Position, delivered: bool)
    requires p.leverage != 0.0
    requires NeedsSeed(levels, key)
    ensures var s := TickSpec(levels, key, p, delivered);
      s.outcome.NoChange? ==> key in s.levels && s.levels[key] == SeedLevel(p)
    ensures IsLong(p) ==> SeedLevel(p) == p.entryPrice - p.entryPrice / p.leverage
    ensures !IsLong(p) ==> SeedLevel(p) == p.entryPrice + p.entryPrice / p.leverage
  {
  }

  /** The ratchet: an uncrossed tick whose candidate mark ∓ entry/leverage is
      strictly tighter than the level in force stores that candidate, and only
      such a tick updates; an uncrossed tick without a tighter candidate keeps
      the level in force. */
  lemma TickUpdates(levels: map<string, real>, key: string, p: Position, delivered: bool)
    requires p.leverage != 0.0
    ensures var s := TickSpec(levels, key, p, delivered);
      var level := LevelInForce(levels, key, p);
      && (s.outcome.Updated? <==> !Crossed(p, level) && Tighter(p, Candidate(p), level))
      && (!Crossed(p, level) && !Tighter(p, Candidate(p), level) ==>
            s.outcome.NoChange? && key in s.levels && s.levels[key] == level)
    ensures var s := TickSpec(levels, key, p, delivered);
      s.outcome.Updated? ==>
        && key in s.levels
        && s.levels[key] == s.outcome.level == Candidate(p)
        && (IsLong(p) ==> s.outcome.level > LevelInForce(levels, key, p))
        && (!IsLong(p) ==> s.outcome.level < LevelInForce(levels, key, p))
        && !Crossed(p, LevelInForce(levels, key, p))
  {
  }

  /** A tick touches no key but its own. */
  lemma TickLocal(levels: map<string, real>, key: string, p: Position, delivered: bool, other: string)
    requires p.leverage != 0.0
    requires other != key
    ensures var s := TickSpec(levels, key, p, delivered);
      (other in s.levels <==> other in levels) && (other in levels ==> s.levels[other] == levels[other])
  {
  }

  /** The level of a long never decreases while its key survives the tick
      (a zero level is re-seeded to entry - entry/leverage, which is not below 0
      for a non-negative entry and a leverage of at least 1). */
  lemma LongTickNeverLoosens(levels: map<string, real>, key: string, p: Position, delivered: bool)
    requires p.leverage >= 1.0 && p.entryPrice >= 0.0 && IsLong(p)
    requires key in levels
    ensures var s := TickSpec(levels, key, p, delivered);
      key in s.levels ==> s.levels[key] >= levels[key]
  {
    if levels[key] == 0.0 {
      assert p.entryPrice / p.leverage <= p.entryPrice by {
        DivByAtLeastOne(p.entryPrice, p.leverage);
      }
    }
  }

  lemma DivByAtLeastOne(a: real, d: real)
    requires a >= 0.0 && d >= 1.0
    ensures 0.0 <= a / d <= a
  {
    var q := a / d;
    assert q * d == a;
    assert q >= 0.0;
    assert q * (d - 1.0) >= 0.0;
  }

  /** The level of a short never increases while its key survives the tick,
      provided a level is stored (non-zero). */
  lemma ShortTickNeverLoosens(levels: map<string, real>, key: string, p: Position, delivered: bool)
    requires p.leverage != 0.0 && !IsLong(p)
    requires key in levels && levels[key] != 0.0
    ensures var s := TickSpec(levels, key, p, delivered);
      key in s.levels ==> s.levels[key] <= levels[key]
  {
  }

  /** The zero-means-missing test loosens a short: a stored level of 0 is
      replaced by the seed above entry. */
  lemma ShortZeroLevelReseeded()
    ensures var p := Position("BTCUSDT", 100.0, 101.0, 50.0, -1.0);
      var s := TickSpec(map["1_BTCUSDT" := 0.0], "1_BTCUSDT", p, true);
      s.outcome == NoChange && s.levels["1_BTCUSDT"] == 102.0
  {
    var p := Position("BTCUSDT", 100.0, 101.0, 50.0, -1.0);
    assert SeedLevel(p) == 102.0;
    assert Candidate(p) == 103.0;
  }

  /** A delivered trigger forgets the level even though the stop order it
      submits may fail or not fill: `setStopLossMarket` swallows its errors.
      If the position is still open, the next cycle re-seeds from entry, and
      the ratchet then stores a level below the forgotten one. */
  lemma TriggeredStopReseedsLower()
    ensures var key := "1_BTCUSDT";
      var first := TickSpec(map[key := 140.0], key, Position("BTCUSDT", 100.0, 139.0, 50.0, 1.0), true);
      var second := TickSpec(first.levels, key, Position("BTCUSDT", 100.0, 141.0, 50.0, 1.0), true);
      && first.outcome == Triggered(140.0, 1.0)
      && key !in first.levels
      && second.outcome == Updated(139.0)
      && second.levels[key] == 139.0 < 140.0
  {
    var p := Position("BTCUSDT", 100.0, 141.0, 50.0, 1.0);
    assert SeedLevel(p) == 98.0;
    assert Candidate(p) == 139.0;
  }

  /** The level of a closed position is kept under its key and inherited by
      the next position on the same symbol: a long's level below price makes a
      new short on that symbol trigger at once, at the long's level. */
  lemma StaleLevelTriggersNewShort()
    ensures var short := Position("ETHUSDT", 2000.0, 2000.0, 50.0, -0.5);
      TickSpec(map["7_ETHUSDT" := 1960.0], "7_ETHUSDT", short, true).outcome == Triggered(1960.0, 0.5)
  {
  }

  // ---------------------------------------------------------------------
  // One monitoring cycle over all open positions
  // ---------------------------------------------------------------------

  predicate Leveraged(ps: seq<Position>) {
    forall i :: 0 <= i < |ps| ==> ps[i].leverage != 0.0
  }

  /** The inputs of a cycle line up: for each position, whether its
      notification went out and, if not, whether the error report did. */
  predicate Shaped(ps: seq<Position>, delivered: seq<bool>, reported: seq<bool>) {
    |delivered| == |ps| && |reported| == |ps| && Leveraged(ps)
  }

  /** A tick that sent a message (trigger or update) which failed, and whose
      error report failed as well: the exception leaves the loop for the outer
      `catch`, and the rest of the cycle is abandoned. */
  predicate Abandons(outcome: TickOutcome, delivered: bool, reported: bool) {
    !outcome.NoChange? && !delivered && !reported
  }

  /** The map after a cycle, the outcome of each position processed (in
      order), and whether the cycle ended early. */
  datatype Cycle = Cycle(levels: map<string, real>, outcomes: seq<TickOutcome>, abandoned: bool)

  /** A cycle: positions are processed in order until one abandons it. */
  function Sweep(levels: map<string, real>, chatId: string, ps: seq<Position>,
                 delivered: seq<bool>, reported: seq<bool>): (c: Cycle)
    requires Shaped(ps, delivered, reported)
    ensures |c.outcomes| <= |ps|
    ensures !c.abandoned ==> |c.outcomes| == |ps|
    ensures forall j :: 0 <= j < |c.outcomes| ==>
      (Abandons(c.outcomes[j], delivered[j], reported[j]) <==> c.abandoned && j == |c.outcomes| - 1)
    decreases |ps|
  {
    if |ps| == 0 then Cycle(levels, [], false)
    else
      var n := |ps| - 1;
      var prev := Sweep(levels, chatId, ps[..n], delivered[..n], reported[..n]);
      if prev.abandoned then prev
      else
        var s := TickSpec(prev.levels, Key(chatId, ps[n].symbol), ps[n], delivered[n]);
        Cycle(s.levels, prev.outcomes + [s.outcome], Abandons(s.outcome, delivered[n], reported[n]))
  }

  /** Once a cycle is abandoned, the positions after that point change nothing. */
  lemma {:induction false} SweepAbandonedStays(levels: map<string, real>, chatId: string, ps: seq<Position>,
                                               delivered: seq<bool>, reported: seq<bool>, i: nat)
    requires Shaped(ps, delivered, reported) && i <= |ps|
    requires Sweep(levels, chatId, ps[..i], delivered[..i], reported[..i]).abandoned
    ensures Sweep(levels, chatId, ps, delivered, reported) == Sweep(levels, chatId, ps[..i], delivered[..i], reported[..i])
    decreases |ps|
  {
    if i < |ps| {
      var n := |ps| - 1;
      assert ps[..n][..i] == ps[..i];
      assert delivered[..n][..i] == delivered[..i];
      assert reported[..n][..i] == reported[..i];
      SweepAbandonedStays(levels, chatId, ps[..n], delivered[..n], reported[..n], i);
    } else {
      assert ps[..i] == ps && delivered[..i] == delivered && reported[..i] == reported;
    }
  }

  /** A cycle in which every failed message was at least reported runs to the end. */
  lemma SweepCompletes(levels: map<string, real>, chatId: string, ps: seq<Position>,
                       delivered: seq<bool>, reported: seq<bool>)
    requires Shaped(ps, delivered, reported)
    requires forall k :: 0 <= k < |ps| ==> delivered[k] || reported[k]
    ensures !Sweep(levels, chatId, ps, delivered, reported).abandoned
  {
    var c := Sweep(levels, chatId, ps, delivered, reported);
    if |c.outcomes| > 0 {
      var last := |c.outcomes| - 1;
      assert !Abandons(c.outcomes[last], delivered[last], reported[last]);
    }
  }

  /** Position j is processed when no earlier message failed unreported. */
  lemma {:induction false} SweepReaches(levels: map<string, real>, chatId: string, ps: seq<Position>,
                                        delivered: seq<bool>, reported: seq<bool>, j: nat)
    requires Shaped(ps, delivered, reported) && j < |ps|
    requires forall k :: 0 <= k < j ==> delivered[k] || reported[k]
    ensures j < |Sweep(levels, chatId, ps, delivered, reported).outcomes|
    decreases |ps|
  {
    var n := |ps| - 1;
    if j < n {
      SweepReaches(levels, chatId, ps[..n], delivered[..n], reported[..n], j);
    } else {
      SweepCompletes(levels, chatId, ps[..n], delivered[..n], reported[..n]);
    }
  }

  /** The two maps hold the same entry (or none) under the key. */
  predicate AgreeAt(l1: map<string, real>, l2: map<string, real>, key: string) {
    (key in l1 <==> key in l2) && (key in l1 ==> l1[key] == l2[key])
  }

  /** A cycle for one chat leaves every key it does not visit as it was:
      levels of other chats, and of symbols with no open position. */
  lemma {:induction false} SweepLocal(levels: map<string, real>, chatId: string, ps: seq<Position>,
                                      delivered: seq<bool>, reported: seq<bool>, other: string)
    requires Shaped(ps, delivered, reported)
    requires forall i :: 0 <= i < |ps| ==> Key(chatId, ps[i].symbol) != other
    ensures AgreeAt(Sweep(levels, chatId, ps, delivered, reported).levels, levels, other)
    decreases |ps|
  {
    if |ps| > 0 {
      var n := |ps| - 1;
      SweepLocal(levels, chatId, ps[..n], delivered[..n], reported[..n], other);
      var prev := Sweep(levels, chatId, ps[..n], delivered[..n], reported[..n]);
      TickLocal(prev.levels, Key(chatId, ps[n].symbol), ps[n], delivered[n], other);
    }
  }

  /** Keys of distinct chats never collide when chat ids contain no '_'
      (Telegram chat ids are decimal numbers). */
  lemma KeyInjective(c1: string, s1: string, c2: string, s2: string)
    requires '_' !in c1 && '_' !in c2
    requires Key(c1, s1) == Key(c2, s2)
    ensures c1 == c2 && s1 == s2
  {
    var k := Key(c1, s1);
    assert forall i :: 0 <= i < |c1| ==> k[i] == c1[i] != '_';
    assert forall i :: 0 <= i < |c2| ==> k[i] == c2[i] != '_';
    assert k[|c1|] == '_' && k[|c2|] == '_';
    assert c1 == k[..|c1|] == c2;
  }

  /** A cycle for one chat leaves the levels of every other chat untouched. */
  lemma SweepLeavesOtherChats(levels: map<string, real>, chatId: string, ps: seq<Position>,
                              delivered: seq<bool>, reported: seq<bool>, otherChat: string, symbol: string)
    requires Shaped(ps, delivered, reported)
    requires '_' !in chatId && '_' !in otherChat && otherChat != chatId
    ensures AgreeAt(Sweep(levels, chatId, ps, delivered, reported).levels, levels, Key(otherChat, symbol))
  {
    forall i | 0 <= i < |ps|
      ensures Key(chatId, ps[i].symbol) != Key(otherChat, symbol)
    {
      if Key(chatId, ps[i].symbol) == Key(otherChat, symbol) {
        KeyInjective(chatId, ps[i].symbol, otherChat, symbol);
      }
    }
    SweepLocal(levels, chatId, ps, delivered, reported, Key(otherChat, symbol));
  }

  /** Within one chat, distinct symbols give distinct keys. */
  lemma KeySymbolInjective(chatId: string, s1: string, s2: string)
    requires s1 != s2
    ensures Key(chatId, s1) != Key(chatId, s2)
  {
    var k1, k2 := Key(chatId, s1), Key(chatId, s2);
    assert k1[|chatId| + 1..] == s1 && k2[|chatId| + 1..] == s2;
  }

  /** No two positions of the list share a symbol (one-way mode). */
  predicate DistinctSymbols(ps: seq<Position>) {
    forall a, b :: 0 <= a < b < |ps| ==> ps[a].symbol != ps[b].symbol
  }

  /** When the exchange reports each symbol once, each position's tick in a
      cycle sees the level stored before the cycle: positions do not interact. */
  lemma {:induction false} SweepIndependent(levels: map<string, real>, chatId: string, ps: seq<Position>,
                                            delivered: seq<bool>, reported: seq<bool>, j: nat)
    requires Shaped(ps, delivered, reported) && DistinctSymbols(ps)
    requires j < |Sweep(levels, chatId, ps, delivered, reported).outcomes|
    ensures Sweep(levels, chatId, ps, delivered, reported).outcomes[j]
         == TickSpec(levels, Key(chatId, ps[j].symbol), ps[j], delivered[j]).outcome
    decreases |ps|
  {
    var n := |ps| - 1;
    var prev := Sweep(levels, chatId, ps[..n], delivered[..n], reported[..n]);
    if prev.abandoned || j < n {
      SweepIndependent(levels, chatId, ps[..n], delivered[..n], reported[..n], j);
    } else {
      var key := Key(chatId, ps[n].symbol);
      forall i | 0 <= i < n
        ensures Key(chatId, ps[..n][i].symbol) != key
      {
        KeySymbolInjective(chatId, ps[i].symbol, ps[n].symbol);
      }
      SweepLocal(levels, chatId, ps[..n], delivered[..n], reported[..n], key);
      TickDependsOnOwnKey(prev.levels, levels, key, ps[n], delivered[n]);
    }
  }

  /** With each symbol reported once, the level a cycle leaves under a
      processed position's key is the one its tick alone would leave. */
  lemma {:induction false} SweepAtOwnKey(levels: map<string, real>, chatId: string, ps: seq<Position>,
                                         delivered: seq<bool>, reported: seq<bool>, j: nat)
    requires Shaped(ps, delivered, reported) && DistinctSymbols(ps)
    requires j < |Sweep(levels, chatId, ps, delivered, reported).outcomes|
    ensures var key := Key(chatId, ps[j].symbol);
      AgreeAt(Sweep(levels, chatId, ps, delivered, reported).levels,
              TickSpec(levels, key, ps[j], delivered[j]).levels, key)
    decreases |ps|
  {
    var n := |ps| - 1;
    var key := Key(chatId, ps[j].symbol);
    var prev := Sweep(levels, chatId, ps[..n], delivered[..n], reported[..n]);
    if prev.abandoned {
      SweepAtOwnKey(levels, chatId, ps[..n], delivered[..n], reported[..n], j);
    } else if j < n {
      SweepAtOwnKey(levels, chatId, ps[..n], delivered[..n], reported[..n], j);
      KeySymbolInjective(chatId, ps[n].symbol, ps[j].symbol);
      TickLocal(prev.levels, Key(chatId, ps[n].symbol), ps[n], delivered[n], key);
    } else {
      forall i | 0 <= i < n
        ensures Key(chatId, ps[..n][i].symbol) != key
      {
        KeySymbolInjective(chatId, ps[i].symbol, ps[n].symbol);
      }
      SweepLocal(levels, chatId, ps[..n], delivered[..n], reported[..n], key);
      TickDependsOnOwnKey(prev.levels, levels, key, ps[n], delivered[n]);
    }
  }

  /** A tick's outcome, and what it stores under its key, depend only on the
      entry under that key. */
  lemma TickDependsOnOwnKey(l1: map<string, real>, l2: map<string, real>, key: string, p: Position, delivered: bool)
    requires p.leverage != 0.0
    requires AgreeAt(l1, l2, key)
    ensures TickSpec(l1, key, p, delivered).outcome == TickSpec(l2, key, p, delivered).outcome
    ensures AgreeAt(TickSpec(l1, key, p, delivered).levels, TickSpec(l2, key, p, delivered).levels, key)
  {
  }

  // ---------------------------------------------------------------------
  // Successive cycles for one position
  // ---------------------------------------------------------------------

  /** The level map after a position is observed once per cycle, with the
      reported prices `ps` and notification results `delivered`. */
  function Run(levels: map<string, real>, key: string, ps: seq<Position>, delivered: seq<bool>): (r: map<string, real>)
    requires |delivered| == |ps| && Leveraged(ps)
    ensures forall other :: other != key ==> AgreeAt(r, levels, other)
    decreases |ps|
  {
    if |ps| == 0 then levels
    else
      var next := TickSpec(levels, key, ps[0], delivered[0]).levels;
      assert forall other :: other != key ==> AgreeAt(next, levels, other) by {
        forall other | other != key {
          TickLocal(levels, key, ps[0], delivered[0], other);
        }
      }
      var r := Run(next, key, ps[1..], delivered[1..]);
      assert forall other :: other != key ==> AgreeAt(r, levels, other) by {
        forall other | other != key
          ensures AgreeAt(r, levels, other)
        {
          assert AgreeAt(r, next, other) && AgreeAt(next, levels, other);
        }
      }
      r
  }

  /** The key is still stored after every one of the ticks (the stop never fired
      with a delivered notification). */
  predicate KeptThroughout(levels: map<string, real>, key: string, ps: seq<Position>, delivered: seq<bool>)
    requires |delivered| == |ps| && Leveraged(ps)
    decreases |ps|
  {
    |ps| == 0 ||
    var next := TickSpec(levels, key, ps[0], delivered[0]).levels;
    key in next && KeptThroughout(next, key, ps[1..], delivered[1..])
  }

  /** Over successive cycles the stop of a long never moves down. */
  lemma {:induction false} LongRunNeverLoosens(levels: map<string, real>, key: string,
                                               ps: seq<Position>, delivered: seq<bool>)
    requires |delivered| == |ps| && Leveraged(ps)
    requires forall i :: 0 <= i < |ps| ==> IsLong(ps[i]) && ps[i].entryPrice >= 0.0 && ps[i].leverage >= 1.0
    requires key in levels
    requires KeptThroughout(levels, key, ps, delivered)
    ensures key in Run(levels, key, ps, delivered)
    ensures Run(levels, key, ps, delivered)[key] >= levels[key]
    decreases |ps|
  {
    if |ps| > 0 {
      var next := TickSpec(levels, key, ps[0], delivered[0]).levels;
      LongTickNeverLoosens(levels, key, ps[0], delivered[0]);
      LongRunNeverLoosens(next, key, ps[1..], delivered[1..]);
    }
  }

  /** Over successive cycles the stop of a short never moves up, as long as
      prices stay positive (so the ratchet never stores 0). */
  lemma {:induction false} ShortRunNeverLoosens(levels: map<string, real>, key: string,
                                                ps: seq<Position>, delivered: seq<bool>)
    requires |delivered| == |ps| && Leveraged(ps)
    requires forall i :: 0 <= i < |ps| ==>
      !IsLong(ps[i]) && ps[i].entryPrice >= 0.0 && ps[i].markPrice > 0.0 && ps[i].leverage > 0.0
    requires key in levels && levels[key] != 0.0
    requires KeptThroughout(levels, key, ps, delivered)
    ensures key in Run(levels, key, ps, delivered)
    ensures Run(levels, key, ps, delivered)[key] <= levels[key]
    decreases |ps|
  {
    if |ps| > 0 {
      var p := ps[0];
      var next := TickSpec(levels, key, p, delivered[0]).levels;
      ShortTickNeverLoosens(levels, key, p, delivered[0]);
      assert p.entryPrice / p.leverage >= 0.0;
      assert next[key] != 0.0;
      ShortRunNeverLoosens(next, key, ps[1..], delivered[1..]);
    }
  }

  // ---------------------------------------------------------------------
  // Successive cycles of a chat, and the run of one position in them
  // ---------------------------------------------------------------------

  /** The inputs of one monitoring cycle. */
  datatype Batch = Batch(positions: seq<Position>, delivered: seq<bool>, reported: seq<bool>)

  /** A batch as the exchange reports it in one-way mode: each symbol once. */
  predicate Reportable(b: Batch) {
    Shaped(b.positions, b.delivered, b.reported) && DistinctSymbols(b.positions)
  }

  /** The level map after successive cycles of one chat (successive calls of
      StopMonitor.Monitor). */
  function Sweeps(levels: map<string, real>, chatId: string, bs: seq<Batch>): map<string, real>
    requires forall i :: 0 <= i < |bs| ==> Reportable(bs[i])
    decreases |bs|
  {
    if |bs| == 0 then levels
    else
      assert Reportable(bs[0]);
      Sweeps(Sweep(levels, chatId, bs[0].positions, bs[0].delivered, bs[0].reported).levels, chatId, bs[1..])
  }

  /** In every cycle, the position at idx[i] is on `symbol` and is reached: no
      earlier message of that cycle failed unreported. */
  predicate Tracks(bs: seq<Batch>, symbol: string, idx: seq<nat>)
    requires forall i :: 0 <= i < |bs| ==> Reportable(bs[i])
  {
    && |idx| == |bs|
    && forall i :: 0 <= i < |bs| ==>
         idx[i] < |bs[i].positions| && bs[i].positions[idx[i]].symbol == symbol && Reached(bs[i], idx[i])
  }

  /** No message before position j of the cycle failed unreported. */
  predicate Reached(b: Batch, j: nat)
    requires Reportable(b)
  {
    forall k :: 0 <= k < j && k < |b.positions| ==> b.delivered[k] || b.reported[k]
  }

  /** The tracked position of every cycle. */
  function Picks(bs: seq<Batch>, symbol: string, idx: seq<nat>): (r: seq<Position>)
    requires forall i :: 0 <= i < |bs| ==> Reportable(bs[i])
    requires Tracks(bs, symbol, idx)
    ensures |r| == |bs| && Leveraged(r)
    ensures forall i :: 0 <= i < |bs| ==> r[i] == bs[i].positions[idx[i]]
  {
    seq(|bs|, i requires 0 <= i < |bs| => bs[i].positions[idx[i]])
  }

  /** Whether the tracked position's notification went out, cycle by cycle. */
  function PickDelivered(bs: seq<Batch>, symbol: string, idx: seq<nat>): (r: seq<bool>)
    requires forall i :: 0 <= i < |bs| ==> Reportable(bs[i])
    requires Tracks(bs, symbol, idx)
    ensures |r| == |bs|
    ensures forall i :: 0 <= i < |bs| ==> r[i] == bs[i].delivered[idx[i]]
  {
    seq(|bs|, i requires 0 <= i < |bs| => bs[i].delivered[idx[i]])
  }

  /** Successive cycles leave under a tracked position's key what Run leaves
      for that position alone: the other positions of the chat do not affect it. */
  lemma {:induction false} SweepsFollowRun(l1: map<string, real>, l2: map<string, real>, chatId: string,
                                           bs: seq<Batch>, symbol: string, idx: seq<nat>)
    requires forall i :: 0 <= i < |bs| ==> Reportable(bs[i])
    requires Tracks(bs, symbol, idx)
    requires AgreeAt(l1, l2, Key(chatId, symbol))
    ensures AgreeAt(Sweeps(l1, chatId, bs),
                    Run(l2, Key(chatId, symbol), Picks(bs, symbol, idx), PickDelivered(bs, symbol, idx)),
                    Key(chatId, symbol))
    decreases |bs|
  {
    if |bs| > 0 {
      var key := Key(chatId, symbol);
      var b := bs[0];
      var ps, ds := Picks(bs, symbol, idx), PickDelivered(bs, symbol, idx);
      var s1 := Sweep(l1, chatId, b.positions, b.delivered, b.reported).levels;
      var t1 := TickSpec(l2, key, ps[0], ds[0]).levels;
      SweepReaches(l1, chatId, b.positions, b.delivered, b.reported, idx[0]);
      SweepAtOwnKey(l1, chatId, b.positions, b.delivered, b.reported, idx[0]);
      TickDependsOnOwnKey(l1, l2, key, ps[0], ds[0]);
      assert AgreeAt(s1, t1, key);
      assert Tracks(bs[1..], symbol, idx[1..]);
      assert Picks(bs[1..], symbol, idx[1..]) == ps[1..];
      assert PickDelivered(bs[1..], symbol, idx[1..]) == ds[1..];
      SweepsFollowRun(s1, t1, chatId, bs[1..], symbol, idx[1..]);
    }
  }

  /** Over successive cycles of the monitor, the stop of a long position never
      moves down while its key survives. */
  lemma LongCyclesNeverLoosen(levels: map<string, real>, chatId: string,
                              bs: seq<Batch>, symbol: string, idx: seq<nat>)
    requires forall i :: 0 <= i < |bs| ==> Reportable(bs[i])
    requires Tracks(bs, symbol, idx)
    requires forall i :: 0 <= i < |bs| ==> var p := bs[i].positions[idx[i]];
      IsLong(p) && p.entryPrice >= 0.0 && p.leverage >= 1.0
    requires Key(chatId, symbol) in levels
    requires KeptThroughout(levels, Key(chatId, symbol), Picks(bs, symbol, idx), PickDelivered(bs, symbol, idx))
    ensures Key(chatId, symbol) in Sweeps(levels, chatId, bs)
    ensures Sweeps(levels, chatId, bs)[Key(chatId, symbol)] >= levels[Key(chatId, symbol)]
  {
    SweepsFollowRun(levels, levels, chatId, bs, symbol, idx);
    LongRunNeverLoosens(levels, Key(chatId, symbol), Picks(bs, symbol, idx), PickDelivered(bs, symbol, idx));
  }

  /** Over successive cycles of the monitor, the non-zero stop of a short
      position never moves up while its key survives and prices stay positive. */
  lemma ShortCyclesNeverLoosen(levels: map<string, real>, chatId: string,
                               bs: seq<Batch>, symbol: string, idx: seq<nat>)
    requires forall i :: 0 <= i < |bs| ==> Reportable(bs[i])
    requires Tracks(bs, symbol, idx)
    requires forall i :: 0 <= i < |bs| ==> var p := bs[i].positions[idx[i]];
      !IsLong(p) && p.entryPrice >= 0.0 && p.markPrice > 0.0 && p.leverage > 0.0
    requires Key(chatId, symbol) in levels && levels[Key(chatId, symbol)] != 0.0
    requires KeptThroughout(levels, Key(chatId, symbol), Picks(bs, symbol, idx), PickDelivered(bs, symbol, idx))
    ensures Key(chatId, symbol) in Sweeps(levels, chatId, bs)
    ensures Sweeps(levels, chatId, bs)[Key(chatId, symbol)] <= levels[Key(chatId, symbol)]
  {
    SweepsFollowRun(levels, levels, chatId, bs, symbol, idx);
    ShortRunNeverLoosens(levels, Key(chatId, symbol), Picks(bs, symbol, idx), PickDelivered(bs, symbol, idx));
  }

  // ---------------------------------------------------------------------
  // The mutable map
  // ---------------------------------------------------------------------

  /** `trailingStopLevels`. */
  class StopMonitor {
    var levels: map<string, real>

    constructor ()
      ensures levels == map[]
    {
      levels := map[];
    }

    /** The body of the loop of `monitorStopLoss` for one position. */
    method Tick(key: string, p: Position, delivered: bool) returns (outcome: TickOutcome)
      requires p.leverage != 0.0
      modifies this
      ensures levels == TickSpec(old(levels), key, p, delivered).levels
      ensures outcome == TickSpec(old(levels), key, p, delivered).outcome
    {
      var isLong := p.positionAmt > 0.0;
      var quantity := if p.positionAmt < 0.0 then -p.positionAmt else p.positionAmt;
      if key !in levels || levels[key] == 0.0 {
        levels := levels[key := if isLong then p.entryPrice - p.entryPrice / p.leverage
                                else p.entryPrice + p.entryPrice / p.leverage];
      }
      var level := levels[key];
      if (isLong && p.markPrice <= level) || (!isLong && p.markPrice >= level) {
        outcome := Triggered(level, quantity);
        if delivered {
          levels := levels - {key};
        }
        return;
      }
      var newPotentialStop;
      if isLong {
        newPotentialStop := p.markPrice - p.entryPrice / p.leverage;
        if newPotentialStop > level {
          levels := levels[key := newPotentialStop];
          outcome := Updated(newPotentialStop);
        } else {
          outcome := NoChange;
        }
      } else {
        newPotentialStop := p.markPrice + p.entryPrice / p.leverage;
        if newPotentialStop < level {
          levels := levels[key := newPotentialStop];
          outcome := Updated(newPotentialStop);
        } else {
          outcome := NoChange;
        }
      }
    }

    /** One call of `monitorStopLoss`: the open positions of the chat, in the
        order the exchange lists them, until a failed message whose error
        report also fails ends the cycle. */
    method Monitor(chatId: string, positions: seq<Position>, delivered: seq<bool>, reported: seq<bool>)
      returns (outcomes: seq<TickOutcome>)
      requires Shaped(positions, delivered, reported)
      modifies this
      ensures levels == Sweep(old(levels), chatId, positions, delivered, reported).levels
      ensures outcomes == Sweep(old(levels), chatId, positions, delivered, reported).outcomes
    {
      outcomes := [];
      for i := 0 to |positions|
        invariant levels == Sweep(old(levels), chatId, positions[..i], delivered[..i], reported[..i]).levels
        invariant outcomes == Sweep(old(levels), chatId, positions[..i], delivered[..i], reported[..i]).outcomes
        invariant !Sweep(old(levels), chatId, positions[..i], delivered[..i], reported[..i]).abandoned
      {
        assert positions[..i + 1][..i] == positions[..i];
        assert delivered[..i + 1][..i] == delivered[..i];
        assert reported[..i + 1][..i] == reported[..i];
        var outcome := Tick(Key(chatId, positions[i].symbol), positions[i], delivered[i]);
        outcomes := outcomes + [outcome];
        if outcome != NoChange && !delivered[i] && !reported[i] {
          SweepAbandonedStays(old(levels), chatId, positions, delivered, reported, i + 1);
          return;
        }
      }
      assert positions[..|positions|] == positions;
      assert delivered[..|delivered|] == delivered;
      assert reported[..|reported|] == reported;
    }
  }
}
