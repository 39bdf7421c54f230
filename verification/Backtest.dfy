/** The signal backtest: one position at a time, opened and closed tick by tick. Its ledger balances, its
    drawdown is the true one, and nothing it does depends on what it could not yet know. */
module Backtest {
  import opened Common

  datatype Reason = Stop | Exit | EndOfData

  datatype Direction = Long | Short

  datatype Closing = Closing(stamp: int, exitPrice: real, exitFee: real, gross: real, net: real, reason: Reason)

  datatype Trade = Trade(openStamp: int, direction: Direction, entryPrice: real, qty: real, entryFee: real,
                         closing: Option<Closing>)

  datatype Tick = Tick(bid: real, ask: real, stamp: int)

  /** `impactOf` is the impact of a participation rate, `fillChance` the chance of a fill at a price and
      quantity: both may be any functions. */
  datatype Config = Config(
    entryBps: real, exitBps: real, takerFeeBps: real, tradeQty: real, maxPosition: real, latency: nat,
    stopLossBps: real, advUsd: real, impactOf: real -> real, fillChance: (real, real) -> real)
  {
    function Fee(): real { takerFeeBps * 0.0001 }
    function Entry(): real { entryBps * 0.0001 }
    function ExitLevel(): real { exitBps * 0.0001 }
    function StopLoss(): real { stopLossBps * 0.0001 }
    function Qty(): real { if maxPosition < tradeQty then maxPosition else tradeQty }
  }

  datatype State = State(
    position: real, entryPrice: real, pnl: real, peak: real, maxDrawdown: real, trades: seq<Trade>,
    equity: seq<(int, real)>, drawn: nat)

  const START := State(0.0, 0.0, 0.0, 0.0, 0.0, [], [], 0)

  // ---------------------------------------------------------------- one tick

  /** The price a fill of this quantity gets: up for a buy, down for a sale. */
  function FillPrice(cfg: Config, price: real, qty: real): real {
    var impact := cfg.impactOf(Abs(qty) * price / MaxReal(cfg.advUsd, 0.000000001));
    price * (1.0 + if qty > 0.0 then impact else -impact)
  }

  function FeeOn(cfg: Config, qty: real, price: real): real {
    Abs(qty) * price * cfg.Fee()
  }

  function Gain(position: real, price: real, entryPrice: real): real {
    position * (price - entryPrice)
  }

  /** The ledger's side of opening: the fee is paid and the trade begins. */
  function Begin(s: State, price: real, qty: real, direction: Direction, stamp: int, fee: real): State {
    s.(pnl := s.pnl - fee, position := qty, entryPrice := price,
       trades := s.trades + [Trade(stamp, direction, price, qty, fee, None)])
  }

  function Open(cfg: Config, s: State, price: real, qty: real, direction: Direction, stamp: int): State {
    Begin(s, price, qty, direction, stamp, FeeOn(cfg, qty, price))
  }

  /** The ledger's side of closing: the last trade gets its results and the profit moves with them. */
  function Finish(s: State, stamp: int, price: real, fee: real, gross: real, reason: Reason): State {
    if s.trades == [] || s.trades[|s.trades| - 1].closing.Some? then s.(position := 0.0)
    else
      var last := |s.trades| - 1;
      var net := gross - fee - s.trades[last].entryFee;
      var pnl := s.pnl + (gross - fee);
      var peak := MaxReal(s.peak, pnl);
      s.(pnl := pnl, peak := peak, maxDrawdown := MinReal(s.maxDrawdown, pnl - peak), position := 0.0,
         trades := s.trades[last := s.trades[last].(closing := Some(Closing(stamp, price, fee, gross, net, reason)))])
  }

  function Close(cfg: Config, s: State, tick: Tick, reason: Reason): State {
    var price := if s.position > 0.0 then tick.bid else tick.ask;
    Finish(s, tick.stamp, price, FeeOn(cfg, s.position, price), Gain(s.position, price, s.entryPrice), reason)
  }

  /** A point of the equity curve. */
  function Observe(s: State, stamp: int, value: real): State {
    s.(equity := s.equity + [(stamp, value)])
  }

  function Mid(tick: Tick): real {
    (tick.bid + tick.ask) / 2.0
  }

  function Unrealized(s: State, tick: Tick): real {
    Gain(s.position, Mid(tick), s.entryPrice)
  }

  /** The stop test; over a zero basis a loss counts as unbounded and anything else as none. */
  predicate StopHit(cfg: Config, s: State, tick: Tick) {
    var basis := Abs(s.position) * s.entryPrice + 0.000000001;
    if basis == 0.0 then Unrealized(s, tick) < 0.0 else Unrealized(s, tick) / basis < -cfg.StopLoss()
  }

  predicate ShouldExit(cfg: Config, position: real, sig: real) {
    (position > 0.0 && sig < cfg.ExitLevel()) || (position < 0.0 && sig > -cfg.ExitLevel())
  }

  function Drawn(s: State): State {
    s.(drawn := s.drawn + 1)
  }

  /** Draws once and opens if the draw is within the chance of a fill. */
  function TryOpen(cfg: Config, s: State, price: real, qty: real, direction: Direction, stamp: int,
                   draws: nat -> real): State {
    var t := Drawn(s);
    if draws(s.drawn) <= cfg.fillChance(price, cfg.Qty()) then
      Open(cfg, t, FillPrice(cfg, price, qty), qty, direction, stamp)
    else t
  }

  /** Which way the signal, net of two fees, is strong enough to enter. */
  function Wanted(cfg: Config, sig: real): Option<Direction> {
    if sig - cfg.Fee() * 2.0 > cfg.Entry() then Some(Long)
    else if -sig - cfg.Fee() * 2.0 > cfg.Entry() then Some(Short)
    else None
  }

  function Enter(cfg: Config, s: State, tick: Tick, wanted: Option<Direction>, draws: nat -> real): State {
    match wanted
    case Some(Long) => TryOpen(cfg, s, tick.bid, cfg.Qty(), Long, tick.stamp, draws)
    case Some(Short) => TryOpen(cfg, s, tick.ask, -cfg.Qty(), Short, tick.stamp, draws)
    case None => s
  }

  /** A tick with a position: the stop goes before the exit. */
  function Hold(cfg: Config, s: State, tick: Tick, stop: bool, leave: bool): State {
    if stop then Close(cfg, s, tick, Stop) else if leave then Close(cfg, s, tick, Exit) else s
  }

  /** A tick on which the tests came out this way; `value` is the position's unrealised profit. */
  function Ticked(cfg: Config, s: State, tick: Tick, stop: bool, leave: bool, wanted: Option<Direction>, value: real,
                  draws: nat -> real): State {
    if s.position != 0.0 then Hold(cfg, Observe(s, tick.stamp, s.pnl + value), tick, stop, leave)
    else Enter(cfg, Observe(s, tick.stamp, s.pnl), tick, wanted, draws)
  }

  function OnTick(cfg: Config, s: State, tick: Tick, sig: real, draws: nat -> real): State {
    Ticked(cfg, s, tick, StopHit(cfg, s, tick), ShouldExit(cfg, s.position, sig), Wanted(cfg, sig),
           Unrealized(s, tick), draws)
  }

  // ---------------------------------------------------------------- a run

  /** The signals as the run sees them, late by the latency. */
  function Padded(cfg: Config, signals: seq<real>): seq<real> {
    seq(cfg.latency, _ => 0.0) + signals
  }

  /** The state after the first `n` ticks. */
  function After(cfg: Config, ticks: seq<Tick>, sigs: seq<real>, draws: nat -> real, n: nat): State
    requires n <= |ticks| && n <= |sigs|
  {
    if n == 0 then START
    else OnTick(cfg, After(cfg, ticks, sigs, draws, n - 1), ticks[n - 1], sigs[n - 1], draws)
  }

  function CloseOut(cfg: Config, s: State, ticks: seq<Tick>): State {
    if s.position != 0.0 && |ticks| > 0 then Close(cfg, s, ticks[|ticks| - 1], EndOfData) else s
  }

  function Result(cfg: Config, ticks: seq<Tick>, signals: seq<real>, draws: nat -> real): State
    requires |ticks| <= |signals| + cfg.latency
  {
    CloseOut(cfg, After(cfg, ticks, Padded(cfg, signals), draws, |ticks|), ticks)
  }

  // ---------------------------------------------------------------- the ledger

  /** What a trade has brought in so far. */
  function Booked(t: Trade): real {
    if t.closing.Some? then t.closing.value.net else -t.entryFee
  }

  function BookedSum(trades: seq<Trade>): real {
    if trades == [] then 0.0 else BookedSum(trades[..|trades| - 1]) + Booked(trades[|trades| - 1])
  }

  /** Only the last trade can be open, and exactly while a position is held: then it is that trade's. */
  ghost predicate OneOpen(s: State) {
    && (forall i :: 0 <= i < |s.trades| - 1 ==> s.trades[i].closing.Some?)
    && (s.position != 0.0 <==> s.trades != [] && s.trades[|s.trades| - 1].closing.None?)
    && (s.position != 0.0 ==> s.trades[|s.trades| - 1].qty == s.position
                              && s.trades[|s.trades| - 1].entryPrice == s.entryPrice)
  }

  ghost predicate Balanced(s: State) {
    s.pnl == BookedSum(s.trades)
  }

  /** How many trades are over. */
  function Closed(s: State): nat {
    if s.trades != [] && s.trades[|s.trades| - 1].closing.None? then |s.trades| - 1 else |s.trades|
  }

  /** What the first `k` trades brought in. */
  function Curve(trades: seq<Trade>, k: nat): real
    requires k <= |trades|
  {
    BookedSum(trades[..k])
  }

  /** The highest point of the realised curve. */
  ghost predicate PeakOf(trades: seq<Trade>, n: nat, peak: real)
    requires n <= |trades|
  {
    && (forall k :: 0 <= k <= n ==> Curve(trades, k) <= peak)
    && (exists k :: 0 <= k <= n && Curve(trades, k) == peak)
  }

  /** The deepest fall of the realised curve from any earlier point: a bound, and reached. */
  ghost predicate FallOf(trades: seq<Trade>, n: nat, drawdown: real)
    requires n <= |trades|
  {
    && (forall i, j :: 0 <= i <= j <= n ==> drawdown <= Curve(trades, j) - Curve(trades, i))
    && (exists i, j :: 0 <= i <= j <= n && Curve(trades, j) - Curve(trades, i) == drawdown)
  }

  ghost predicate DrawdownOf(trades: seq<Trade>, n: nat, peak: real, drawdown: real)
    requires n <= |trades|
  {
    PeakOf(trades, n, peak) && FallOf(trades, n, drawdown)
  }

  ghost predicate Ledger(s: State) {
    OneOpen(s) && Balanced(s)
  }

  ghost predicate Inv(s: State) {
    Ledger(s) && DrawdownOf(s.trades, Closed(s), s.peak, s.maxDrawdown)
  }

  lemma {:induction false} SumSplit(trades: seq<Trade>)
    requires trades != []
    ensures BookedSum(trades) == Curve(trades, |trades| - 1) + Booked(trades[|trades| - 1])
  {
  }

  lemma {:induction false} SameCurve(a: seq<Trade>, b: seq<Trade>, k: nat)
    requires k <= |a| && k <= |b| && a[..k] == b[..k]
    ensures forall i :: 0 <= i <= k ==> Curve(a, i) == Curve(b, i)
  {
    forall i | 0 <= i <= k ensures Curve(a, i) == Curve(b, i) {
      assert a[..i] == a[..k][..i] && b[..i] == b[..k][..i];
    }
  }

  lemma {:induction false} DrawdownCarries(a: seq<Trade>, b: seq<Trade>, n: nat, peak: real, drawdown: real)
    requires n <= |a| && n <= |b| && a[..n] == b[..n] && DrawdownOf(a, n, peak, drawdown)
    ensures DrawdownOf(b, n, peak, drawdown)
  {
    SameCurve(a, b, n);
    var k :| 0 <= k <= n && Curve(a, k) == peak;
    assert Curve(b, k) == peak;
    var i, j :| 0 <= i <= j <= n && Curve(a, j) - Curve(a, i) == drawdown;
    assert Curve(b, j) - Curve(b, i) == drawdown;
  }

  lemma {:induction false} PeakGrows(trades: seq<Trade>, n: nat, peak: real)
    requires n < |trades| && PeakOf(trades, n, peak)
    ensures PeakOf(trades, n + 1, MaxReal(peak, Curve(trades, n + 1)))
  {
    var k :| 0 <= k <= n && Curve(trades, k) == peak;
    var top := if peak < Curve(trades, n + 1) then n + 1 else k;
    assert Curve(trades, top) == MaxReal(peak, Curve(trades, n + 1));
  }

  lemma {:induction false} FallGrows(trades: seq<Trade>, n: nat, peak: real, drawdown: real)
    requires n < |trades| && FallOf(trades, n, drawdown) && PeakOf(trades, n + 1, peak)
    ensures FallOf(trades, n + 1, MinReal(drawdown, Curve(trades, n + 1) - peak))
  {
    var now := Curve(trades, n + 1);
    var low := MinReal(drawdown, now - peak);
    forall i, j | 0 <= i <= j <= n + 1
      ensures low <= Curve(trades, j) - Curve(trades, i)
    {
      if j <= n { assert drawdown <= Curve(trades, j) - Curve(trades, i); }
    }
    if now - peak < drawdown {
      var k :| 0 <= k <= n + 1 && Curve(trades, k) == peak;
      assert Curve(trades, n + 1) - Curve(trades, k) == low;
    } else {
      var i, j :| 0 <= i <= j <= n && Curve(trades, j) - Curve(trades, i) == drawdown;
      assert Curve(trades, j) - Curve(trades, i) == low;
    }
  }

  lemma {:induction false} BeginKeepsLedger(s: State, price: real, qty: real, direction: Direction, stamp: int, fee: real)
    requires Ledger(s) && s.position == 0.0 && qty != 0.0
    ensures Ledger(Begin(s, price, qty, direction, stamp, fee))
  {
    var r := Begin(s, price, qty, direction, stamp, fee);
    SumSplit(r.trades);
    assert r.trades[..|s.trades|] == s.trades;
  }

  lemma {:induction false} BeginKeepsInv(s: State, price: real, qty: real, direction: Direction, stamp: int, fee: real)
    requires Inv(s) && s.position == 0.0 && qty != 0.0
    ensures Inv(Begin(s, price, qty, direction, stamp, fee))
  {
    var r := Begin(s, price, qty, direction, stamp, fee);
    BeginKeepsLedger(s, price, qty, direction, stamp, fee);
    assert r.trades[..|s.trades|] == s.trades && s.trades[..|s.trades|] == s.trades;
    DrawdownCarries(s.trades, r.trades, |s.trades|, s.peak, s.maxDrawdown);
  }

  lemma {:induction false} FinishKeepsSum(s: State, stamp: int, price: real, fee: real, gross: real, reason: Reason)
    requires Balanced(s) && s.trades != [] && s.trades[|s.trades| - 1].closing.None?
    ensures Balanced(Finish(s, stamp, price, fee, gross, reason))
  {
    var r := Finish(s, stamp, price, fee, gross, reason);
    var n := |s.trades| - 1;
    assert r.trades[..n] == s.trades[..n];
    SumSplit(s.trades);
    SumSplit(r.trades);
  }

  lemma {:induction false} FinishKeepsLedger(s: State, stamp: int, price: real, fee: real, gross: real, reason: Reason)
    requires Ledger(s) && s.position != 0.0
    ensures var r := Finish(s, stamp, price, fee, gross, reason);
            && Ledger(r) && r.position == 0.0 && Closed(r) == |r.trades| == |s.trades|
            && r.trades[..|s.trades| - 1] == s.trades[..|s.trades| - 1]
            && r.pnl == Curve(r.trades, |r.trades|)
  {
    var r := Finish(s, stamp, price, fee, gross, reason);
    FinishKeepsSum(s, stamp, price, fee, gross, reason);
    assert r.trades[..|r.trades|] == r.trades;
  }

  lemma {:induction false} FinishKeepsInv(s: State, stamp: int, price: real, fee: real, gross: real, reason: Reason)
    requires Inv(s) && s.position != 0.0
    ensures Inv(Finish(s, stamp, price, fee, gross, reason))
    ensures Finish(s, stamp, price, fee, gross, reason).position == 0.0
  {
    var r := Finish(s, stamp, price, fee, gross, reason);
    var n := |s.trades| - 1;
    FinishKeepsLedger(s, stamp, price, fee, gross, reason);
    GrowDrawdown(s.trades, r.trades, n, s.peak, s.maxDrawdown, r.pnl);
  }

  lemma {:induction false} GrowDrawdown(a: seq<Trade>, b: seq<Trade>, n: nat, peak: real, drawdown: real, pnl: real)
    requires |a| == |b| == n + 1 && a[..n] == b[..n] && DrawdownOf(a, n, peak, drawdown)
    requires pnl == Curve(b, n + 1)
    ensures DrawdownOf(b, n + 1, MaxReal(peak, pnl), MinReal(drawdown, pnl - MaxReal(peak, pnl)))
  {
    DrawdownCarries(a, b, n, peak, drawdown);
    PeakGrows(b, n, peak);
    FallGrows(b, n, MaxReal(peak, pnl), drawdown);
  }

  /** Equity points and draws play no part in the ledger. */
  lemma {:induction false} AsideKeepsInv(s: State, stamp: int, value: real)
    requires Inv(s)
    ensures Inv(Observe(s, stamp, value))
  {
  }

  lemma {:induction false} DrawnKeepsInv(s: State)
    requires Inv(s)
    ensures Inv(Drawn(s))
  {
  }

  lemma {:induction false} CloseKeepsInv(cfg: Config, s: State, tick: Tick, reason: Reason)
    requires Inv(s) && s.position != 0.0
    ensures Inv(Close(cfg, s, tick, reason)) && Close(cfg, s, tick, reason).position == 0.0
  {
    var price := if s.position > 0.0 then tick.bid else tick.ask;
    FinishKeepsInv(s, tick.stamp, price, FeeOn(cfg, s.position, price), Gain(s.position, price, s.entryPrice), reason);
  }

  lemma {:induction false} OpenKeepsInv(cfg: Config, s: State, price: real, qty: real, direction: Direction, stamp: int)
    requires Inv(s) && s.position == 0.0 && qty != 0.0
    ensures Inv(Open(cfg, s, price, qty, direction, stamp))
  {
    BeginKeepsInv(s, price, qty, direction, stamp, FeeOn(cfg, qty, price));
  }

  // What a tick ends in is one of a few states; a property of all of these is one of its result. These
  // are about any property, so that the ledger's stays out of the case split.

  lemma {:induction false} TryOpenEnds(P: State -> bool, cfg: Config, s: State, price: real, qty: real,
                                       direction: Direction, stamp: int, draws: nat -> real)
    requires P(Drawn(s)) && P(Open(cfg, Drawn(s), FillPrice(cfg, price, qty), qty, direction, stamp))
    ensures P(TryOpen(cfg, s, price, qty, direction, stamp, draws))
  {
  }

  lemma {:induction false} HoldEnds(P: State -> bool, cfg: Config, s: State, tick: Tick, stop: bool, leave: bool)
    requires P(s) && P(Close(cfg, s, tick, Stop)) && P(Close(cfg, s, tick, Exit))
    ensures P(Hold(cfg, s, tick, stop, leave))
  {
  }

  lemma {:induction false} EnterEnds(P: State -> bool, cfg: Config, s: State, tick: Tick, wanted: Option<Direction>,
                                     draws: nat -> real)
    requires P(s) && P(TryOpen(cfg, s, tick.bid, cfg.Qty(), Long, tick.stamp, draws))
    requires P(TryOpen(cfg, s, tick.ask, -cfg.Qty(), Short, tick.stamp, draws))
    ensures P(Enter(cfg, s, tick, wanted, draws))
  {
  }

  lemma {:induction false} TickedEnds(P: State -> bool, cfg: Config, s: State, tick: Tick, stop: bool, leave: bool,
                                      wanted: Option<Direction>, value: real, draws: nat -> real)
    requires s.position != 0.0 ==> P(Hold(cfg, Observe(s, tick.stamp, s.pnl + value), tick, stop, leave))
    requires s.position == 0.0 ==> P(Enter(cfg, Observe(s, tick.stamp, s.pnl), tick, wanted, draws))
    ensures P(Ticked(cfg, s, tick, stop, leave, wanted, value, draws))
  {
  }

  lemma {:induction false} AfterEnds(P: State -> bool, cfg: Config, ticks: seq<Tick>, sigs: seq<real>, draws: nat -> real,
                                     n: nat, s: State)
    requires 0 < n <= |ticks| && n <= |sigs| && s == After(cfg, ticks, sigs, draws, n - 1)
    requires P(OnTick(cfg, s, ticks[n - 1], sigs[n - 1], draws))
    ensures P(After(cfg, ticks, sigs, draws, n))
  {
  }

  lemma {:induction false} TryOpenKeepsInv(cfg: Config, s: State, price: real, qty: real, direction: Direction, stamp: int,
                                           draws: nat -> real)
    requires Inv(s) && s.position == 0.0 && qty != 0.0
    ensures Inv(TryOpen(cfg, s, price, qty, direction, stamp, draws))
  {
    DrawnKeepsInv(s);
    OpenKeepsInv(cfg, Drawn(s), FillPrice(cfg, price, qty), qty, direction, stamp);
    TryOpenEnds(Inv, cfg, s, price, qty, direction, stamp, draws);
  }

  lemma {:induction false} HoldKeepsInv(cfg: Config, s: State, tick: Tick, stop: bool, leave: bool)
    requires Inv(s) && s.position != 0.0
    ensures Inv(Hold(cfg, s, tick, stop, leave))
  {
    CloseKeepsInv(cfg, s, tick, Stop);
    CloseKeepsInv(cfg, s, tick, Exit);
    HoldEnds(Inv, cfg, s, tick, stop, leave);
  }

  lemma {:induction false} EnterKeepsInv(cfg: Config, s: State, tick: Tick, wanted: Option<Direction>, draws: nat -> real)
    requires Inv(s) && s.position == 0.0 && cfg.Qty() != 0.0
    ensures Inv(Enter(cfg, s, tick, wanted, draws))
  {
    TryOpenKeepsInv(cfg, s, tick.bid, cfg.Qty(), Long, tick.stamp, draws);
    TryOpenKeepsInv(cfg, s, tick.ask, -cfg.Qty(), Short, tick.stamp, draws);
    EnterEnds(Inv, cfg, s, tick, wanted, draws);
  }

  lemma {:induction false} TickedKeepsInv(cfg: Config, s: State, tick: Tick, stop: bool, leave: bool,
                                          wanted: Option<Direction>, value: real, draws: nat -> real)
    requires Inv(s) && cfg.Qty() != 0.0
    ensures Inv(Ticked(cfg, s, tick, stop, leave, wanted, value, draws))
  {
    if s.position != 0.0 {
      AsideKeepsInv(s, tick.stamp, s.pnl + value);
      HoldKeepsInv(cfg, Observe(s, tick.stamp, s.pnl + value), tick, stop, leave);
    } else {
      AsideKeepsInv(s, tick.stamp, s.pnl);
      EnterKeepsInv(cfg, Observe(s, tick.stamp, s.pnl), tick, wanted, draws);
    }
    TickedEnds(Inv, cfg, s, tick, stop, leave, wanted, value, draws);
  }

  lemma {:induction false} TickKeepsInv(cfg: Config, s: State, tick: Tick, sig: real, draws: nat -> real)
    requires Inv(s) && cfg.Qty() != 0.0
    ensures Inv(OnTick(cfg, s, tick, sig, draws))
  {
    TickedKeepsInv(cfg, s, tick, StopHit(cfg, s, tick), ShouldExit(cfg, s.position, sig), Wanted(cfg, sig),
                   Unrealized(s, tick), draws);
  }

  lemma {:induction false} AfterKeepsInv(cfg: Config, ticks: seq<Tick>, sigs: seq<real>, draws: nat -> real, n: nat)
    requires n <= |ticks| && n <= |sigs| && cfg.Qty() != 0.0
    ensures Inv(After(cfg, ticks, sigs, draws, n))
  {
    if n > 0 {
      AfterKeepsInv(cfg, ticks, sigs, draws, n - 1);
      var s := After(cfg, ticks, sigs, draws, n - 1);
      TickKeepsInv(cfg, s, ticks[n - 1], sigs[n - 1], draws);
      AfterEnds(Inv, cfg, ticks, sigs, draws, n, s);
    } else {
      assert Curve(START.trades, 0) == 0.0;
    }
  }

  function NetSum(trades: seq<Trade>): real {
    if trades == [] then 0.0
    else
      var t := trades[|trades| - 1];
      NetSum(trades[..|trades| - 1]) + if t.closing.Some? then t.closing.value.net else 0.0
  }

  lemma {:induction false} ClosedSum(trades: seq<Trade>)
    requires forall i :: 0 <= i < |trades| ==> trades[i].closing.Some?
    ensures BookedSum(trades) == NetSum(trades)
  {
    if trades != [] { ClosedSum(trades[..|trades| - 1]); }
  }

  /** Main result: every run with a nonzero trade size ends flat with every trade closed, its final profit
      is the sum of the trades' net results, and its reported drawdown is the deepest fall of that running
      sum from any earlier point. */
  lemma {:induction false} LedgerBalances(cfg: Config, ticks: seq<Tick>, signals: seq<real>, draws: nat -> real)
    requires |ticks| <= |signals| + cfg.latency && cfg.Qty() != 0.0
    ensures var r := Result(cfg, ticks, signals, draws);
            && r.position == 0.0 && (forall i :: 0 <= i < |r.trades| ==> r.trades[i].closing.Some?)
            && r.pnl == NetSum(r.trades)
            && DrawdownOf(r.trades, |r.trades|, r.peak, r.maxDrawdown)
  {
    var s := After(cfg, ticks, Padded(cfg, signals), draws, |ticks|);
    AfterKeepsInv(cfg, ticks, Padded(cfg, signals), draws, |ticks|);
    if s.position != 0.0 { CloseKeepsInv(cfg, s, ticks[|ticks| - 1], EndOfData); }
    ClosedSum(Result(cfg, ticks, signals, draws).trades);
  }

  /** What a closed trade did to the cash: bought or sold at the entry price, undone at the exit price, two
      fees paid. */
  function CashOf(t: Trade): real {
    if t.closing.Some? then
      t.qty * t.closing.value.exitPrice - t.qty * t.entryPrice - t.entryFee - t.closing.value.exitFee
    else 0.0
  }

  function CashSum(trades: seq<Trade>): real {
    if trades == [] then 0.0 else CashSum(trades[..|trades| - 1]) + CashOf(trades[|trades| - 1])
  }

  ghost predicate Settles(t: Trade) {
    t.closing.Some? ==> t.closing.value.net == CashOf(t)
  }

  ghost predicate AllSettle(s: State) {
    forall i :: 0 <= i < |s.trades| ==> Settles(s.trades[i])
  }

  lemma {:induction false} Expand(x: real, a: real, b: real)
    ensures x * (a - b) == x * a - x * b
  {
  }

  lemma {:induction false} CloseSettlesTrade(cfg: Config, s: State, tick: Tick, reason: Reason)
    requires Inv(s) && AllSettle(s) && s.position != 0.0
    ensures AllSettle(Close(cfg, s, tick, reason))
  {
    var price := if s.position > 0.0 then tick.bid else tick.ask;
    Expand(s.position, price, s.entryPrice);
    FinishSettles(s, tick.stamp, price, FeeOn(cfg, s.position, price), Gain(s.position, price, s.entryPrice), reason);
  }

  lemma {:induction false} FinishSettles(s: State, stamp: int, price: real, fee: real, gross: real, reason: Reason)
    requires AllSettle(s) && s.trades != []
    requires var t := s.trades[|s.trades| - 1]; gross == t.qty * price - t.qty * t.entryPrice
    ensures AllSettle(Finish(s, stamp, price, fee, gross, reason))
  {
  }

  lemma {:induction false} TickedAllSettle(cfg: Config, s: State, tick: Tick, stop: bool, leave: bool,
                                           wanted: Option<Direction>, value: real, draws: nat -> real)
    requires Inv(s) && AllSettle(s)
    ensures AllSettle(Ticked(cfg, s, tick, stop, leave, wanted, value, draws))
  {
    if s.position != 0.0 {
      AsideKeepsInv(s, tick.stamp, s.pnl + value);
      var t := Observe(s, tick.stamp, s.pnl + value);
      CloseSettlesTrade(cfg, t, tick, Stop);
      CloseSettlesTrade(cfg, t, tick, Exit);
      HoldEnds(AllSettle, cfg, t, tick, stop, leave);
    } else {
      var t := Observe(s, tick.stamp, s.pnl);
      EnterEnds(AllSettle, cfg, t, tick, wanted, draws);
    }
    TickedEnds(AllSettle, cfg, s, tick, stop, leave, wanted, value, draws);
  }

  lemma {:induction false} TickAllSettle(cfg: Config, s: State, tick: Tick, sig: real, draws: nat -> real)
    requires Inv(s) && AllSettle(s)
    ensures AllSettle(OnTick(cfg, s, tick, sig, draws))
  {
    TickedAllSettle(cfg, s, tick, StopHit(cfg, s, tick), ShouldExit(cfg, s.position, sig), Wanted(cfg, sig),
                    Unrealized(s, tick), draws);
  }

  lemma {:induction false} AfterAllSettle(cfg: Config, ticks: seq<Tick>, sigs: seq<real>, draws: nat -> real, n: nat)
    requires n <= |ticks| && n <= |sigs| && cfg.Qty() != 0.0
    ensures AllSettle(After(cfg, ticks, sigs, draws, n))
  {
    if n > 0 {
      var s := After(cfg, ticks, sigs, draws, n - 1);
      AfterAllSettle(cfg, ticks, sigs, draws, n - 1);
      AfterKeepsInv(cfg, ticks, sigs, draws, n - 1);
      TickAllSettle(cfg, s, ticks[n - 1], sigs[n - 1], draws);
      AfterEnds(AllSettle, cfg, ticks, sigs, draws, n, s);
    }
  }

  lemma {:induction false} SettledSum(trades: seq<Trade>)
    requires forall i :: 0 <= i < |trades| ==> Settles(trades[i])
    ensures NetSum(trades) == CashSum(trades)
  {
    if trades != [] { SettledSum(trades[..|trades| - 1]); }
  }

  /** The final profit is the cash the trades made: each bought and sold at its own prices, fees paid. */
  lemma {:induction false} ProfitIsCash(cfg: Config, ticks: seq<Tick>, signals: seq<real>, draws: nat -> real)
    requires |ticks| <= |signals| + cfg.latency && cfg.Qty() != 0.0
    ensures Result(cfg, ticks, signals, draws).pnl == CashSum(Result(cfg, ticks, signals, draws).trades)
  {
    var sigs := Padded(cfg, signals);
    var s := After(cfg, ticks, sigs, draws, |ticks|);
    AfterKeepsInv(cfg, ticks, sigs, draws, |ticks|);
    AfterAllSettle(cfg, ticks, sigs, draws, |ticks|);
    if s.position != 0.0 { CloseSettlesTrade(cfg, s, ticks[|ticks| - 1], EndOfData); }
    LedgerBalances(cfg, ticks, signals, draws);
    SettledSum(Result(cfg, ticks, signals, draws).trades);
  }

  // ---------------------------------------------------------------- no look-ahead

  lemma {:induction false} SamePast(cfg: Config, ticksA: seq<Tick>, sigsA: seq<real>, ticksB: seq<Tick>,
                                    sigsB: seq<real>, draws: nat -> real, n: nat)
    requires n <= |ticksA| && n <= |ticksB| && n <= |sigsA| && n <= |sigsB|
    requires ticksA[..n] == ticksB[..n] && sigsA[..n] == sigsB[..n]
    ensures After(cfg, ticksA, sigsA, draws, n) == After(cfg, ticksB, sigsB, draws, n)
  {
    if n > 0 {
      assert ticksA[..n - 1] == ticksA[..n][..n - 1] && ticksB[..n - 1] == ticksB[..n][..n - 1];
      assert sigsA[..n - 1] == sigsA[..n][..n - 1] && sigsB[..n - 1] == sigsB[..n][..n - 1];
      assert ticksA[..n][n - 1] == ticksB[..n][n - 1] && sigsA[..n][n - 1] == sigsB[..n][n - 1];
      SamePast(cfg, ticksA, sigsA, ticksB, sigsB, draws, n - 1);
    }
  }

  /** The closed trades of the earlier state head the later one's list, unchanged. */
  ghost predicate Settled(s: State, r: State) {
    Closed(s) <= Closed(r) && Closed(s) <= |s.trades| && Closed(r) <= |r.trades|
    && r.trades[..Closed(s)] == s.trades[..Closed(s)]
  }

  lemma {:induction false} CloseSettles(cfg: Config, s: State, tick: Tick, reason: Reason)
    ensures Settled(s, Close(cfg, s, tick, reason))
  {
  }

  lemma {:induction false} TickedSettles(cfg: Config, s: State, tick: Tick, stop: bool, leave: bool,
                                         wanted: Option<Direction>, value: real, draws: nat -> real)
    requires OneOpen(s)
    ensures Settled(s, Ticked(cfg, s, tick, stop, leave, wanted, value, draws))
  {
    if s.position != 0.0 {
      var t := Observe(s, tick.stamp, s.pnl + value);
      CloseSettles(cfg, t, tick, Stop);
      CloseSettles(cfg, t, tick, Exit);
    } else {
      var t := Enter(cfg, Observe(s, tick.stamp, s.pnl), tick, wanted, draws);
      assert t.trades[..|s.trades|] == s.trades;
    }
  }

  lemma {:induction false} TickSettles(cfg: Config, s: State, tick: Tick, sig: real, draws: nat -> real)
    requires OneOpen(s)
    ensures Settled(s, OnTick(cfg, s, tick, sig, draws))
  {
    TickedSettles(cfg, s, tick, StopHit(cfg, s, tick), ShouldExit(cfg, s.position, sig), Wanted(cfg, sig),
                  Unrealized(s, tick), draws);
  }

  lemma {:induction false} AfterSettles(cfg: Config, ticks: seq<Tick>, sigs: seq<real>, draws: nat -> real, m: nat, n: nat)
    requires m <= n <= |ticks| && n <= |sigs| && cfg.Qty() != 0.0
    ensures Settled(After(cfg, ticks, sigs, draws, m), After(cfg, ticks, sigs, draws, n))
    decreases n
  {
    if m < n {
      AfterSettles(cfg, ticks, sigs, draws, m, n - 1);
      AfterKeepsInv(cfg, ticks, sigs, draws, n - 1);
      var a, b := After(cfg, ticks, sigs, draws, m), After(cfg, ticks, sigs, draws, n - 1);
      SettlesOneMore(cfg, a, b, ticks[n - 1], sigs[n - 1], draws);
      AfterEnds((r: State) => Settled(a, r), cfg, ticks, sigs, draws, n, b);
    }
  }

  lemma {:induction false} SettlesOneMore(cfg: Config, a: State, b: State, tick: Tick, sig: real, draws: nat -> real)
    requires Settled(a, b) && Inv(b)
    ensures Settled(a, OnTick(cfg, b, tick, sig, draws))
  {
    TickSettles(cfg, b, tick, sig, draws);
    SettledTransitive(a, b, OnTick(cfg, b, tick, sig, draws));
  }

  lemma {:induction false} SettledTransitive(a: State, b: State, c: State)
    requires Settled(a, b) && Settled(b, c)
    ensures Settled(a, c)
  {
    assert c.trades[..Closed(a)] == c.trades[..Closed(b)][..Closed(a)];
    assert b.trades[..Closed(a)] == b.trades[..Closed(b)][..Closed(a)];
  }

  lemma {:induction false} ResultSettles(cfg: Config, ticks: seq<Tick>, signals: seq<real>, draws: nat -> real, n: nat)
    requires |ticks| <= |signals| + cfg.latency && n <= |ticks| && cfg.Qty() != 0.0
    ensures Settled(After(cfg, ticks, Padded(cfg, signals), draws, n), Result(cfg, ticks, signals, draws))
  {
    var sigs := Padded(cfg, signals);
    AfterSettles(cfg, ticks, sigs, draws, n, |ticks|);
    var s := After(cfg, ticks, sigs, draws, |ticks|);
    if s.position != 0.0 {
      CloseSettles(cfg, s, ticks[|ticks| - 1], EndOfData);
      SettledTransitive(After(cfg, ticks, sigs, draws, n), s, Result(cfg, ticks, signals, draws));
    }
  }

  /** Main result: take two runs whose prices agree through tick `t` and whose signals agree through index
      `t - latency`. They are in the same state after tick `t`, and the trades closed by then stand, the
      same, at the head of both final lists, whatever comes later. */
  lemma {:induction false} NoLookAhead(cfg: Config, ticksA: seq<Tick>, signalsA: seq<real>, ticksB: seq<Tick>,
                                       signalsB: seq<real>, draws: nat -> real, t: nat)
    requires t < |ticksA| <= |signalsA| + cfg.latency && t < |ticksB| <= |signalsB| + cfg.latency
    requires cfg.Qty() != 0.0 && ticksA[..t + 1] == ticksB[..t + 1]
    requires forall i :: 0 <= i <= t - cfg.latency ==> signalsA[i] == signalsB[i]
    ensures var a := After(cfg, ticksA, Padded(cfg, signalsA), draws, t + 1);
            var b := After(cfg, ticksB, Padded(cfg, signalsB), draws, t + 1);
            a == b && Settled(a, Result(cfg, ticksA, signalsA, draws))
            && Settled(a, Result(cfg, ticksB, signalsB, draws))
  {
    var a, b := Padded(cfg, signalsA), Padded(cfg, signalsB);
    forall i | 0 <= i < t + 1 ensures a[i] == b[i] {
      if i >= cfg.latency { assert a[i] == signalsA[i - cfg.latency] && b[i] == signalsB[i - cfg.latency]; }
    }
    assert a[..t + 1] == b[..t + 1];
    SamePast(cfg, ticksA, a, ticksB, b, draws, t + 1);
    ResultSettles(cfg, ticksA, signalsA, draws, t + 1);
    ResultSettles(cfg, ticksB, signalsB, draws, t + 1);
  }

  // ---------------------------------------------------------------- when the ledger holds

  /** The run ends with every trade closed. */
  ghost predicate EndsClosed(cfg: Config, ticks: seq<Tick>, signals: seq<real>, draws: nat -> real) {
    |ticks| <= |signals| + cfg.latency ==>
      (var r := Result(cfg, ticks, signals, draws);
       forall i :: 0 <= i < |r.trades| ==> r.trades[i].closing.Some?)
  }

  lemma {:induction false} ZeroSizeHoldsNothing(cfg: Config, s: State, tick: Tick, wanted: Option<Direction>,
                                                draws: nat -> real)
    requires cfg.Qty() == 0.0 && s.position == 0.0
    ensures Enter(cfg, s, tick, wanted, draws).position == 0.0
  {
  }

  lemma {:induction false} ZeroSizeStaysFlat(cfg: Config, ticks: seq<Tick>, sigs: seq<real>, draws: nat -> real, n: nat)
    requires n <= |ticks| && n <= |sigs| && cfg.Qty() == 0.0
    ensures After(cfg, ticks, sigs, draws, n).position == 0.0
  {
    if n > 0 {
      var s := After(cfg, ticks, sigs, draws, n - 1);
      ZeroSizeStaysFlat(cfg, ticks, sigs, draws, n - 1);
      var tick := ticks[n - 1];
      ZeroSizeHoldsNothing(cfg, Observe(s, tick.stamp, s.pnl), tick, Wanted(cfg, sigs[n - 1]), draws);
      AfterEnds((r: State) => r.position == 0.0, cfg, ticks, sigs, draws, n, s);
    }
  }

  lemma {:induction false} ZeroSizeOpens(cfg: Config, s: State, tick: Tick, sig: real, draws: nat -> real)
    requires cfg.Qty() == 0.0 && s.position == 0.0 && sig - cfg.Fee() * 2.0 > cfg.Entry()
    requires draws(s.drawn) <= cfg.fillChance(tick.bid, 0.0)
    ensures var r := OnTick(cfg, s, tick, sig, draws);
            r.position == 0.0 && |r.trades| == |s.trades| + 1 && r.trades[|s.trades|].closing.None?
  {
    assert Wanted(cfg, sig) == Some(Long);
  }

  /** Whatever the thresholds, fees and latency: one signal strong enough to enter and a draw that fills, and
      a trade of size zero is opened that holds nothing and is never closed. */
  lemma {:induction false} ZeroSizeNeverCloses(cfg: Config, tick: Tick, sig: real, draws: nat -> real)
    requires cfg.Qty() == 0.0 && sig - cfg.Fee() * 2.0 > cfg.Entry()
    requires forall k: nat :: draws(k) <= cfg.fillChance(tick.bid, 0.0)
    ensures !EndsClosed(cfg, seq(cfg.latency + 1, _ => tick), [sig], draws)
  {
    var ticks := seq(cfg.latency + 1, _ => tick);
    var sigs := Padded(cfg, [sig]);
    var s := After(cfg, ticks, sigs, draws, cfg.latency);
    ZeroSizeStaysFlat(cfg, ticks, sigs, draws, cfg.latency);
    ZeroSizeOpens(cfg, s, tick, sig, draws);
    AfterEnds((r: State) => r.position == 0.0 && |r.trades| == |s.trades| + 1 && r.trades[|s.trades|].closing.None?,
              cfg, ticks, sigs, draws, cfg.latency + 1, s);
    var r := Result(cfg, ticks, [sig], draws);
    assert r == After(cfg, ticks, sigs, draws, |ticks|);
    assert r.trades[|s.trades|].closing.None?;
  }

  /** Main result, exactly: for every configuration, every run ends with all its trades closed if and only if
      the trade size is not zero. */
  lemma {:induction false} TradesCloseExactly(cfg: Config)
    ensures (forall ticks: seq<Tick>, signals: seq<real>, draws: nat -> real :: EndsClosed(cfg, ticks, signals, draws))
            <==> cfg.Qty() != 0.0
  {
    if cfg.Qty() != 0.0 {
      forall ticks: seq<Tick>, signals: seq<real>, draws: nat -> real
        ensures EndsClosed(cfg, ticks, signals, draws)
      {
        if |ticks| <= |signals| + cfg.latency { LedgerBalances(cfg, ticks, signals, draws); }
      }
    } else {
      var tick := Tick(100.0, 101.0, 0);
      var sig := cfg.Entry() + cfg.Fee() * 2.0 + 1.0;
      var chance := cfg.fillChance(tick.bid, 0.0);
      ZeroSizeNeverCloses(cfg, tick, sig, _ => chance);
    }
  }

  // ---------------------------------------------------------------- the backtest as an object

  class NeuralAlphaBacktest {
    const cfg: Config
    var position: real
    var entryPrice: real
    var pnl: real
    var peak: real
    var maxDrawdown: real
    var trades: seq<Trade>
    var equity: seq<(int, real)>
    var drawn: nat

    ghost function View(): State
      reads this
    {
      State(position, entryPrice, pnl, peak, maxDrawdown, trades, equity, drawn)
    }

    constructor (cfg: Config)
      ensures this.cfg == cfg && View() == START
    {
      this.cfg := cfg;
      position, entryPrice, pnl, peak, maxDrawdown := 0.0, 0.0, 0.0, 0.0, 0.0;
      trades, equity, drawn := [], [], 0;
    }

    method Reset()
      modifies this
      ensures View() == START
    {
      position, entryPrice, pnl, peak, maxDrawdown := 0.0, 0.0, 0.0, 0.0, 0.0;
      trades, equity, drawn := [], [], 0;
    }

    method OpenPosition(price: real, qty: real, direction: Direction, stamp: int)
      modifies this
      ensures View() == Open(cfg, old(View()), price, qty, direction, stamp)
    {
      var fee := FeeOn(cfg, qty, price);
      pnl := pnl - fee;
      position := qty;
      entryPrice := price;
      trades := trades + [Trade(stamp, direction, price, qty, fee, None)];
    }

    method ClosePosition(tick: Tick, reason: Reason)
      modifies this
      ensures View() == Close(cfg, old(View()), tick, reason)
    {
      if trades == [] || trades[|trades| - 1].closing.Some? {
        position := 0.0;
        return;
      }
      var last := |trades| - 1;
      var price := if position > 0.0 then tick.bid else tick.ask;
      var fee := FeeOn(cfg, position, price);
      var gross := Gain(position, price, entryPrice);
      var net := gross - fee - trades[last].entryFee;
      pnl := pnl + (gross - fee);
      peak := MaxReal(peak, pnl);
      maxDrawdown := MinReal(maxDrawdown, pnl - peak);
      trades := trades[last := trades[last].(closing := Some(Closing(tick.stamp, price, fee, gross, net, reason)))];
      position := 0.0;
    }

    method TryEnter(price: real, qty: real, direction: Direction, stamp: int, draws: nat -> real)
      modifies this
      ensures View() == TryOpen(cfg, old(View()), price, qty, direction, stamp, draws)
    {
      var draw := draws(drawn);
      drawn := drawn + 1;
      if draw <= cfg.fillChance(price, cfg.Qty()) {
        OpenPosition(FillPrice(cfg, price, qty), qty, direction, stamp);
      }
    }

    method RunTick(tick: Tick, sig: real, draws: nat -> real)
      modifies this
      ensures View() == OnTick(cfg, old(View()), tick, sig, draws)
    {
      if position != 0.0 {
        var stop := StopTest(tick);
        equity := equity + [(tick.stamp, pnl + Gain(position, Mid(tick), entryPrice))];
        if stop {
          ClosePosition(tick, Stop);
        } else if ShouldExit(cfg, position, sig) {
          ClosePosition(tick, Exit);
        }
        return;
      }
      equity := equity + [(tick.stamp, pnl)];
      if sig - cfg.Fee() * 2.0 > cfg.Entry() {
        TryEnter(tick.bid, cfg.Qty(), Long, tick.stamp, draws);
      } else if -sig - cfg.Fee() * 2.0 > cfg.Entry() {
        TryEnter(tick.ask, -cfg.Qty(), Short, tick.stamp, draws);
      }
    }

    method StopTest(tick: Tick) returns (hit: bool)
      ensures hit <==> StopHit(cfg, View(), tick)
    {
      var value := Gain(position, Mid(tick), entryPrice);
      var basis := Abs(position) * entryPrice + 0.000000001;
      if basis == 0.0 { return value < 0.0; }
      return value / basis < -cfg.StopLoss();
    }

    /** Runs from scratch over every tick and closes what is left; with LedgerBalances and NoLookAhead, what
        holds of every run. */
    method Run(ticks: seq<Tick>, signals: seq<real>, draws: nat -> real)
      requires |ticks| <= |signals| + cfg.latency
      modifies this
      ensures View() == Result(cfg, ticks, signals, draws)
      ensures cfg.Qty() != 0.0 ==> position == 0.0 && pnl == NetSum(trades)
    {
      Reset();
      var sigs := Padded(cfg, signals);
      for t := 0 to |ticks|
        invariant View() == After(cfg, ticks, sigs, draws, t)
      {
        RunTick(ticks[t], sigs[t], draws);
      }
      if position != 0.0 && |ticks| > 0 {
        ClosePosition(ticks[|ticks| - 1], EndOfData);
      }
      if cfg.Qty() != 0.0 { LedgerBalances(cfg, ticks, signals, draws); }
    }
  }
}
