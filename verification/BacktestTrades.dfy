/** What the backtest trades on: every trade is entered on the signal of its tick, in the signal's direction, and
    left at the touch of its own side, by the stop, by the signal or with the data. */
module BacktestTrades {
  import opened Common
  import opened Backtest

  // ---------------------------------------------------------------- in plain terms

  /** The signal is worth the entry threshold and the fees of both ends. */
  predicate Strong(cfg: Config, sig: real) {
    10000.0 * sig > cfg.entryBps + 2.0 * cfg.takerFeeBps
  }

  /** The signal no longer supports the position. */
  predicate Faded(cfg: Config, position: real, sig: real) {
    (position > 0.0 && 10000.0 * sig < cfg.exitBps) || (position < 0.0 && -10000.0 * sig < cfg.exitBps)
  }

  function Basis(position: real, entryPrice: real): real {
    Abs(position) * entryPrice + 0.000000001
  }

  /** At mid, the position has lost more than the stop's share of what it is worth at entry. */
  predicate StopMet(cfg: Config, position: real, entryPrice: real, tick: Tick) {
    10000.0 * (position * ((tick.bid + tick.ask) / 2.0 - entryPrice)) < -(cfg.stopLossBps * Basis(position, entryPrice))
  }

  /** The quantity a trade in this direction takes. */
  function Taken(cfg: Config, direction: Direction): real {
    var qty := MinReal(cfg.tradeQty, cfg.maxPosition);
    if direction == Long then qty else -qty
  }

  /** The fee is the taker's, in basis points of what the quantity costs at this price. */
  ghost predicate FeeOf(cfg: Config, fee: real, qty: real, price: real) {
    10000.0 * fee == cfg.takerFeeBps * (Abs(qty) * price)
  }

  /** The price moves against the order by the impact of its share of the daily volume. */
  function Impacted(cfg: Config, from: real, qty: real): real {
    var impact := cfg.impactOf(Abs(qty) * from / MaxReal(cfg.advUsd, 0.000000001));
    from * (1.0 + if qty > 0.0 then impact else -impact)
  }

  /** A long is entered from the bid, a short from the ask, each moved by its own impact. */
  ghost predicate OpenedOn(cfg: Config, trade: Trade, tick: Tick, direction: Direction) {
    && trade.openStamp == tick.stamp && trade.direction == direction && trade.qty == Taken(cfg, direction)
    && trade.entryPrice == Impacted(cfg, if direction == Long then tick.bid else tick.ask, trade.qty)
    && FeeOf(cfg, trade.entryFee, trade.qty, trade.entryPrice)
  }

  /** A trade that bought leaves at the bid and one that sold at the ask; it gains the distance from its entry,
      net of both fees. */
  ghost predicate ClosedOn(cfg: Config, trade: Trade, c: Closing, tick: Tick) {
    && c.stamp == tick.stamp && c.exitPrice == (if trade.qty > 0.0 then tick.bid else tick.ask)
    && FeeOf(cfg, c.exitFee, trade.qty, c.exitPrice)
    && c.gross == trade.qty * (c.exitPrice - trade.entryPrice)
    && c.net == c.gross - c.exitFee - trade.entryFee
  }

  // ---------------------------------------------------------------- a tick with a position

  lemma {:induction false} FeeIs(cfg: Config, qty: real, price: real)
    ensures FeeOf(cfg, FeeOn(cfg, qty, price), qty, price)
  {
    assert 10000.0 * (Abs(qty) * price * (cfg.takerFeeBps * 0.0001)) == Abs(qty) * price * cfg.takerFeeBps;
  }

  lemma {:induction false} QuotientBelow(x: real, basis: real, bound: real)
    requires basis > 0.0
    ensures x / basis < bound <==> x < bound * basis
  {
    var q := x / basis;
    assert x == q * basis;
    if q < bound { Times(q, bound, basis); } else { TimesLoose(bound, q, basis); }
  }

  lemma {:induction false} Times(a: real, b: real, c: real)
    requires a < b && c > 0.0
    ensures a * c < b * c
  {
  }

  lemma {:induction false} TimesLoose(a: real, b: real, c: real)
    requires a <= b && c > 0.0
    ensures a * c <= b * c
  {
  }

  lemma {:induction false} StopIs(cfg: Config, s: State, tick: Tick)
    requires Basis(s.position, s.entryPrice) > 0.0
    ensures StopHit(cfg, s, tick) <==> StopMet(cfg, s.position, s.entryPrice, tick)
  {
    var basis := Basis(s.position, s.entryPrice);
    QuotientBelow(Unrealized(s, tick), basis, -cfg.StopLoss());
    Scaled(cfg.stopLossBps, basis);
  }

  lemma {:induction false} Scaled(bps: real, basis: real)
    ensures 10000.0 * (-(bps * 0.0001) * basis) == -(bps * basis)
  {
  }

  lemma {:induction false} CloseIs(cfg: Config, s: State, tick: Tick, reason: Reason)
    requires OneOpen(s) && s.position != 0.0
    ensures var t := Close(cfg, s, tick, reason);
            var n := |s.trades| - 1;
            && t.position == 0.0 && |t.trades| == n + 1 && t.trades[..n] == s.trades[..n]
            && t.drawn == s.drawn && t.equity == s.equity
            && t.trades[n].closing.Some? && t.trades[n] == s.trades[n].(closing := t.trades[n].closing)
            && t.trades[n].closing.value.reason == reason
            && ClosedOn(cfg, s.trades[n], t.trades[n].closing.value, tick)
  {
    FeeIs(cfg, s.position, if s.position > 0.0 then tick.bid else tick.ask);
  }

  lemma {:induction false} FadedIs(cfg: Config, position: real, sig: real)
    ensures ShouldExit(cfg, position, sig) <==> Faded(cfg, position, sig)
  {
  }

  lemma {:induction false} HeldIs(cfg: Config, s: State, tick: Tick, sig: real, draws: nat -> real)
    requires s.position != 0.0 && Basis(s.position, s.entryPrice) > 0.0
    ensures OnTick(cfg, s, tick, sig, draws) ==
            Hold(cfg, Observe(s, tick.stamp, s.pnl + s.position * ((tick.bid + tick.ask) / 2.0 - s.entryPrice)), tick,
                 StopMet(cfg, s.position, s.entryPrice, tick), Faded(cfg, s.position, sig))
  {
    StopIs(cfg, s, tick);
    FadedIs(cfg, s.position, sig);
    assert Mid(tick) == (tick.bid + tick.ask) / 2.0;
    assert Unrealized(s, tick) == s.position * ((tick.bid + tick.ask) / 2.0 - s.entryPrice);
  }

  /** The last trade, open in `s`, is closed in `t`, for this reason. */
  ghost predicate Closes(cfg: Config, s: State, t: State, tick: Tick, reason: Reason) {
    var n := |s.trades| - 1;
    && t.position == 0.0 && |t.trades| == |s.trades| > 0 && t.trades[..n] == s.trades[..n]
    && t.trades[n].closing.Some? && t.trades[n].closing.value.reason == reason
    && ClosedOn(cfg, s.trades[n], t.trades[n].closing.value, tick)
  }

  /** A tick with a position marks it at mid and leaves it alone unless the stop is met or the signal has faded;
      then it is closed at the touch, the stop's name going first. */
  lemma {:induction false} HeldTick(cfg: Config, s: State, tick: Tick, sig: real, draws: nat -> real)
    requires OneOpen(s) && s.position != 0.0 && Basis(s.position, s.entryPrice) > 0.0
    ensures var t := OnTick(cfg, s, tick, sig, draws);
            && t.equity == s.equity + [(tick.stamp, s.pnl + s.position * ((tick.bid + tick.ask) / 2.0 - s.entryPrice))]
            && if StopMet(cfg, s.position, s.entryPrice, tick) then Closes(cfg, s, t, tick, Stop)
               else if Faded(cfg, s.position, sig) then Closes(cfg, s, t, tick, Exit)
               else t == s.(equity := t.equity)
  {
    HeldIs(cfg, s, tick, sig, draws);
    var value := s.pnl + s.position * ((tick.bid + tick.ask) / 2.0 - s.entryPrice);
    HoldIs(cfg, s, Observe(s, tick.stamp, value), tick, StopMet(cfg, s.position, s.entryPrice, tick),
           Faded(cfg, s.position, sig));
  }

  lemma {:induction false} HoldIs(cfg: Config, s: State, marked: State, tick: Tick, stop: bool, leave: bool)
    requires OneOpen(s) && s.position != 0.0 && marked == s.(equity := marked.equity)
    ensures var t := Hold(cfg, marked, tick, stop, leave);
            && t.equity == marked.equity
            && if stop then Closes(cfg, s, t, tick, Stop) else if leave then Closes(cfg, s, t, tick, Exit) else t == marked
  {
    CloseIs(cfg, marked, tick, Stop);
    CloseIs(cfg, marked, tick, Exit);
  }

  // ---------------------------------------------------------------- a tick without

  lemma {:induction false} BeginIs(cfg: Config, s: State, price: real, qty: real, direction: Direction, stamp: int)
    ensures var t := Open(cfg, s, price, qty, direction, stamp);
            var fee := FeeOn(cfg, qty, price);
            && |t.trades| == |s.trades| + 1 && t.trades[..|s.trades|] == s.trades
            && t.trades[|s.trades|] == Trade(stamp, direction, price, qty, fee, None)
            && t.position == qty && t.drawn == s.drawn && t.equity == s.equity
            && FeeOf(cfg, fee, qty, price)
  {
    FeeIs(cfg, qty, price);
  }

  lemma {:induction false} QuantityIs(cfg: Config, direction: Direction)
    ensures Taken(cfg, direction) == if direction == Long then cfg.Qty() else -cfg.Qty()
  {
  }

  lemma {:induction false} PriceIs(cfg: Config, from: real, qty: real)
    ensures FillPrice(cfg, from, qty) == Impacted(cfg, from, qty)
  {
  }

  lemma {:induction false} OpenIs(cfg: Config, s: State, tick: Tick, direction: Direction)
    ensures var from := if direction == Long then tick.bid else tick.ask;
            var qty := Taken(cfg, direction);
            var t := Open(cfg, s, FillPrice(cfg, from, qty), qty, direction, tick.stamp);
            && |t.trades| == |s.trades| + 1 && t.trades[..|s.trades|] == s.trades && t.trades[|s.trades|].closing.None?
            && OpenedOn(cfg, t.trades[|s.trades|], tick, direction)
            && t.position == qty && t.drawn == s.drawn && t.equity == s.equity
  {
    var from := if direction == Long then tick.bid else tick.ask;
    var qty := Taken(cfg, direction);
    PriceIs(cfg, from, qty);
    BeginIs(cfg, s, FillPrice(cfg, from, qty), qty, direction, tick.stamp);
  }

  /** What a strong signal does: one draw, and a trade in its direction if the draw is within the chance of a
      fill at the touch it rests at. */
  ghost predicate Tried(cfg: Config, s: State, t: State, tick: Tick, direction: Direction, draws: nat -> real) {
    && t.drawn == s.drawn + 1
    && if draws(s.drawn) <= cfg.fillChance(if direction == Long then tick.bid else tick.ask, cfg.Qty()) then
         && |t.trades| == |s.trades| + 1 && t.trades[..|s.trades|] == s.trades
         && t.trades[|s.trades|].closing.None? && OpenedOn(cfg, t.trades[|s.trades|], tick, direction)
         && t.position == Taken(cfg, direction)
       else t.trades == s.trades && t.position == 0.0
  }

  lemma {:induction false} TriedIs(cfg: Config, s: State, tick: Tick, direction: Direction, draws: nat -> real)
    requires s.position == 0.0
    ensures var from := if direction == Long then tick.bid else tick.ask;
            var t := TryOpen(cfg, s, from, Taken(cfg, direction), direction, tick.stamp, draws);
            Tried(cfg, s, t, tick, direction, draws) && t.equity == s.equity
  {
    OpenIs(cfg, Drawn(s), tick, direction);
  }

  /** A tick without a position trades the strong signal's way, long before short, and on no other. */
  lemma {:induction false} FlatTick(cfg: Config, s: State, tick: Tick, sig: real, draws: nat -> real)
    requires s.position == 0.0
    ensures var t := OnTick(cfg, s, tick, sig, draws);
            && t.equity == s.equity + [(tick.stamp, s.pnl)]
            && if Strong(cfg, sig) then Tried(cfg, s, t, tick, Long, draws)
               else if Strong(cfg, -sig) then Tried(cfg, s, t, tick, Short, draws)
               else t == s.(equity := t.equity)
  {
    var marked := Observe(s, tick.stamp, s.pnl);
    TriedIs(cfg, marked, tick, Long, draws);
    TriedIs(cfg, marked, tick, Short, draws);
    QuantityIs(cfg, Long);
    QuantityIs(cfg, Short);
    assert Wanted(cfg, sig) == if Strong(cfg, sig) then Some(Long) else if Strong(cfg, -sig) then Some(Short) else None;
  }

  // ---------------------------------------------------------------- over a run

  /** Entered on tick `j` on a signal of its own direction. */
  ghost predicate Entered(cfg: Config, ticks: seq<Tick>, sigs: seq<real>, trade: Trade, j: nat) {
    && j < |ticks| && j < |sigs| && OpenedOn(cfg, trade, ticks[j], trade.direction)
    && Strong(cfg, if trade.direction == Long then sigs[j] else -sigs[j])
  }

  /** Entered on a tick before `n`, and if it is over, left at the touch of that tick or a later one. */
  ghost predicate Accounted(cfg: Config, ticks: seq<Tick>, sigs: seq<real>, n: nat, trade: Trade) {
    exists j: nat :: j < n && Entered(cfg, ticks, sigs, trade, j) && Left(cfg, ticks, n, trade, j)
  }

  ghost predicate Left(cfg: Config, ticks: seq<Tick>, n: nat, trade: Trade, j: nat) {
    trade.closing.Some? ==> exists k: nat :: j <= k < n && k < |ticks| && ClosedOn(cfg, trade, trade.closing.value, ticks[k])
  }

  ghost predicate AllAccounted(cfg: Config, ticks: seq<Tick>, sigs: seq<real>, n: nat, trades: seq<Trade>) {
    forall i :: 0 <= i < |trades| ==> Accounted(cfg, ticks, sigs, n, trades[i])
  }

  lemma {:induction false} StillAccounted(cfg: Config, ticks: seq<Tick>, sigs: seq<real>, n: nat, m: nat, trade: Trade)
    requires n <= m && Accounted(cfg, ticks, sigs, n, trade)
    ensures Accounted(cfg, ticks, sigs, m, trade)
  {
    var j: nat :| j < n && Entered(cfg, ticks, sigs, trade, j) && Left(cfg, ticks, n, trade, j);
    if trade.closing.Some? {
      var k: nat :| j <= k < n && k < |ticks| && ClosedOn(cfg, trade, trade.closing.value, ticks[k]);
      assert j <= k < m;
    }
    assert Left(cfg, ticks, m, trade, j);
  }

  /** How a trade ended has no part in how it began, nor in what closing it is. */
  lemma {:induction false} ClosingAside(cfg: Config, trade: Trade, closing: Option<Closing>, tick: Tick, c: Closing)
    ensures var done := trade.(closing := closing);
            && (OpenedOn(cfg, done, tick, done.direction) <==> OpenedOn(cfg, trade, tick, trade.direction))
            && (ClosedOn(cfg, done, c, tick) <==> ClosedOn(cfg, trade, c, tick))
  {
  }

  lemma {:induction false} EnteredAside(cfg: Config, ticks: seq<Tick>, sigs: seq<real>, trade: Trade, c: Closing, j: nat)
    requires Entered(cfg, ticks, sigs, trade, j)
    ensures Entered(cfg, ticks, sigs, trade.(closing := Some(c)), j)
  {
    ClosingAside(cfg, trade, Some(c), ticks[j], c);
  }

  lemma {:induction false} LeftOn(cfg: Config, ticks: seq<Tick>, m: nat, trade: Trade, c: Closing, j: nat, k: nat)
    requires j <= k < m && k < |ticks| && ClosedOn(cfg, trade, c, ticks[k])
    ensures Left(cfg, ticks, m, trade.(closing := Some(c)), j)
  {
    ClosingAside(cfg, trade, Some(c), ticks[k], c);
  }

  /** The open trade, closed on a tick before `n`, is accounted for. */
  lemma {:induction false} ClosedAccounted(cfg: Config, ticks: seq<Tick>, sigs: seq<real>, n: nat, m: nat, trade: Trade,
                                           c: Closing, k: nat)
    requires n <= k + 1 <= m && k < |ticks| && trade.closing.None? && Accounted(cfg, ticks, sigs, n, trade)
    requires ClosedOn(cfg, trade, c, ticks[k])
    ensures Accounted(cfg, ticks, sigs, m, trade.(closing := Some(c)))
  {
    var j: nat :| j < n && Entered(cfg, ticks, sigs, trade, j) && Left(cfg, ticks, n, trade, j);
    EnteredAside(cfg, ticks, sigs, trade, c, j);
    LeftOn(cfg, ticks, m, trade, c, j, k);
  }

  lemma {:induction false} CloseAccounted(cfg: Config, s: State, ticks: seq<Tick>, sigs: seq<real>, n: nat, m: nat, k: nat,
                                          reason: Reason)
    requires OneOpen(s) && s.position != 0.0 && AllAccounted(cfg, ticks, sigs, n, s.trades)
    requires n <= k + 1 <= m && k < |ticks|
    ensures AllAccounted(cfg, ticks, sigs, m, Close(cfg, s, ticks[k], reason).trades)
  {
    CloseIs(cfg, s, ticks[k], reason);
    var t := Close(cfg, s, ticks[k], reason);
    var last := |s.trades| - 1;
    forall i | 0 <= i < |t.trades|
      ensures Accounted(cfg, ticks, sigs, m, t.trades[i])
    {
      assert Accounted(cfg, ticks, sigs, n, s.trades[i]);
      if i < last {
        assert t.trades[i] == t.trades[..last][i] == s.trades[i];
        StillAccounted(cfg, ticks, sigs, n, m, s.trades[i]);
      } else {
        ClosedAccounted(cfg, ticks, sigs, n, m, s.trades[last], t.trades[last].closing.value, k);
      }
    }
  }

  lemma {:induction false} SameAccounted(cfg: Config, ticks: seq<Tick>, sigs: seq<real>, n: nat, trades: seq<Trade>)
    requires AllAccounted(cfg, ticks, sigs, n, trades)
    ensures AllAccounted(cfg, ticks, sigs, n + 1, trades)
  {
    forall i | 0 <= i < |trades| ensures Accounted(cfg, ticks, sigs, n + 1, trades[i]) {
      StillAccounted(cfg, ticks, sigs, n, n + 1, trades[i]);
    }
  }

  lemma {:induction false} OpenAccounted(cfg: Config, ticks: seq<Tick>, sigs: seq<real>, n: nat, trades: seq<Trade>,
                                         more: seq<Trade>)
    requires AllAccounted(cfg, ticks, sigs, n, trades) && n < |ticks| && n < |sigs|
    requires |more| == |trades| + 1 && more[..|trades|] == trades && more[|trades|].closing.None?
    requires Entered(cfg, ticks, sigs, more[|trades|], n)
    ensures AllAccounted(cfg, ticks, sigs, n + 1, more)
  {
    forall i | 0 <= i < |more| ensures Accounted(cfg, ticks, sigs, n + 1, more[i]) {
      if i < |trades| {
        assert more[i] == more[..|trades|][i] == trades[i];
        StillAccounted(cfg, ticks, sigs, n, n + 1, trades[i]);
      } else {
        assert Left(cfg, ticks, n + 1, more[i], n);
      }
    }
  }

  lemma {:induction false} TickAccounted(cfg: Config, s: State, ticks: seq<Tick>, sigs: seq<real>, n: nat,
                                         draws: nat -> real)
    requires OneOpen(s) && n < |ticks| && n < |sigs| && AllAccounted(cfg, ticks, sigs, n, s.trades)
    ensures AllAccounted(cfg, ticks, sigs, n + 1, OnTick(cfg, s, ticks[n], sigs[n], draws).trades)
  {
    SameAccounted(cfg, ticks, sigs, n, s.trades);
    var t := OnTick(cfg, s, ticks[n], sigs[n], draws);
    if s.position != 0.0 {
      var marked := Observe(s, ticks[n].stamp, s.pnl + Unrealized(s, ticks[n]));
      CloseAccounted(cfg, marked, ticks, sigs, n, n + 1, n, Stop);
      CloseAccounted(cfg, marked, ticks, sigs, n, n + 1, n, Exit);
    } else {
      FlatTick(cfg, s, ticks[n], sigs[n], draws);
      if |t.trades| == |s.trades| + 1 {
        OpenAccounted(cfg, ticks, sigs, n, s.trades, t.trades);
      }
    }
  }

  lemma {:induction false} AfterOneOpen(cfg: Config, ticks: seq<Tick>, sigs: seq<real>, draws: nat -> real, n: nat)
    requires n <= |ticks| && n <= |sigs| && cfg.Qty() != 0.0
    ensures OneOpen(After(cfg, ticks, sigs, draws, n))
  {
    AfterKeepsInv(cfg, ticks, sigs, draws, n);
  }

  lemma {:induction false} NextAccounted(cfg: Config, ticks: seq<Tick>, sigs: seq<real>, draws: nat -> real, n: nat,
                                         s: State)
    requires n < |ticks| && n < |sigs| && cfg.Qty() != 0.0 && s == After(cfg, ticks, sigs, draws, n)
    requires AllAccounted(cfg, ticks, sigs, n, s.trades)
    ensures AllAccounted(cfg, ticks, sigs, n + 1, OnTick(cfg, s, ticks[n], sigs[n], draws).trades)
  {
    AfterOneOpen(cfg, ticks, sigs, draws, n);
    TickAccounted(cfg, s, ticks, sigs, n, draws);
  }

  lemma {:induction false} AfterAccounted(cfg: Config, ticks: seq<Tick>, sigs: seq<real>, draws: nat -> real, n: nat)
    requires n <= |ticks| && n <= |sigs| && cfg.Qty() != 0.0
    ensures AllAccounted(cfg, ticks, sigs, n, After(cfg, ticks, sigs, draws, n).trades)
  {
    if n > 0 {
      AfterAccounted(cfg, ticks, sigs, draws, n - 1);
      var s := After(cfg, ticks, sigs, draws, n - 1);
      NextAccounted(cfg, ticks, sigs, draws, n - 1, s);
      AfterEnds((r: State) => AllAccounted(cfg, ticks, sigs, n, r.trades), cfg, ticks, sigs, draws, n, s);
    }
  }

  /** Main result: every trade of every run was entered on the signal of its tick, late by the latency, in that
      signal's direction and from the touch, and was left at the touch of its own side on that tick or a later
      one, with its fees and gains worked out from these prices. */
  lemma {:induction false} EveryTradeAccounted(cfg: Config, ticks: seq<Tick>, signals: seq<real>, draws: nat -> real)
    requires |ticks| <= |signals| + cfg.latency && cfg.Qty() != 0.0
    ensures var late := seq(|ticks|, i requires 0 <= i < |ticks| => if i < cfg.latency then 0.0 else signals[i - cfg.latency]);
            AllAccounted(cfg, ticks, late, |ticks|, Result(cfg, ticks, signals, draws).trades)
  {
    var late := seq(|ticks|, i requires 0 <= i < |ticks| => if i < cfg.latency then 0.0 else signals[i - cfg.latency]);
    var sigs := Padded(cfg, signals);
    AfterAccounted(cfg, ticks, sigs, draws, |ticks|);
    AfterOneOpen(cfg, ticks, sigs, draws, |ticks|);
    var s := After(cfg, ticks, sigs, draws, |ticks|);
    if s.position != 0.0 && |ticks| > 0 {
      CloseAccounted(cfg, s, ticks, sigs, |ticks|, |ticks|, |ticks| - 1, EndOfData);
    }
    SameSignals(cfg, ticks, sigs, late, Result(cfg, ticks, signals, draws).trades);
  }

  lemma {:induction false} SameSignals(cfg: Config, ticks: seq<Tick>, a: seq<real>, b: seq<real>, trades: seq<Trade>)
    requires |ticks| <= |a| && |ticks| <= |b| && (forall i :: 0 <= i < |ticks| ==> a[i] == b[i])
    requires AllAccounted(cfg, ticks, a, |ticks|, trades)
    ensures AllAccounted(cfg, ticks, b, |ticks|, trades)
  {
    forall i | 0 <= i < |trades| ensures Accounted(cfg, ticks, b, |ticks|, trades[i]) {
      assert Accounted(cfg, ticks, a, |ticks|, trades[i]);
      var j: nat :| j < |ticks| && Entered(cfg, ticks, a, trades[i], j) && Left(cfg, ticks, |ticks|, trades[i], j);
      assert Entered(cfg, ticks, b, trades[i], j);
    }
  }
}
