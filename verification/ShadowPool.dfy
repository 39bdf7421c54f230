/** The shadow connector: a fixed pool of order slots filled against a quoted book, feeding the ledger. */
module ShadowPool {
  import opened Common
  import opened ShadowLedger

  const MAX_SHADOW_ORDERS: nat := 256
  const FILL_TOLERANCE: real := 0.000000000001

  datatype Exchange = Binance | Okx | Coinbase | Kraken | Unknown

  datatype OrderKind = Market | Limit | StopLimit

  datatype TimeInForce = Gtc | Ioc | Fok | Gtx

  datatype Order = Order(
    id: nat, symbol: string, exchange: Exchange, side: Side, kind: OrderKind, tif: TimeInForce,
    price: real, quantity: real)

  /** A slot of the pool. `ticket` numbers the accepted orders; client ids may repeat. */
  datatype Slot = Slot(
    ticket: nat, order: Order, filled: real, notional: real, queueAhead: real, release: int,
    active: bool, maker: bool)

  datatype OrderState = PartiallyFilled | Filled | Canceled | Rejected

  datatype Update = Update(ticket: nat, id: nat, state: OrderState, quantity: real, cumulative: real)

  /** Maker and taker fee of each venue, latency model, slippage and queue matching. */
  datatype Config = Config(
    makerBps: Exchange -> real, takerBps: Exchange -> real, baseLatency: int, latencyJitter: int,
    impactBps: real, matchFraction: real)

  datatype Level = Level(price: real, size: real)

  /** Top of the book, best level first; an empty side has no liquidity. */
  datatype Quote = Quote(bids: seq<Level>, asks: seq<Level>)
  {
    function BestBid(): real {
      if bids == [] then 0.0 else bids[0].price
    }

    function BestAsk(): real {
      if asks == [] then 0.0 else asks[0].price
    }

    function Opposite(side: Side): real {
      if side.Bid? then BestAsk() else BestBid()
    }

    function OppositeSize(side: Side): real {
      var levels := if side.Bid? then asks else bids;
      if levels == [] then 0.0 else levels[0].size
    }
  }

  // ---------------------------------------------------------------- one slot

  /** What acting on a slot leaves in it, and the fills and updates it sends out. */
  datatype Action = Action(slot: Slot, fills: seq<Fill>, updates: seq<Update>)

  function Report(s: Slot, state: OrderState): Update {
    Update(s.ticket, s.order.id, state, 0.0, 0.0)
  }

  function Cancel(s: Slot): Action {
    Action(s.(active := false), [], [Report(s, Canceled)])
  }

  function Reject(s: Slot): Action {
    Action(s.(active := false), [], [Report(s, Rejected)])
  }

  /** An unknown venue pays what Kraken charges. */
  function FeeBps(cfg: Config, s: Slot): real {
    var venue := if s.order.exchange.Unknown? then Kraken else s.order.exchange;
    if s.maker then cfg.makerBps(venue) else cfg.takerBps(venue)
  }

  function Book(s: Slot, price: real, quantity: real, cfg: Config): Action {
    if quantity <= 0.0 then Action(s, [], [])
    else
      var total := s.filled + quantity;
      var complete := total >= s.order.quantity - FILL_TOLERANCE;
      var filled := if complete then s.order.quantity else total;
      var state := if filled >= s.order.quantity then Filled else PartiallyFilled;
      Action(s.(filled := filled, notional := s.notional + price * quantity, active := s.active && !complete),
             [Fill(s.order.side, quantity, price, FeeBps(cfg, s))],
             [Update(s.ticket, s.order.id, state, quantity, filled)])
  }

  function Slipped(price: real, quantity: real, side: Side, q: Quote, cfg: Config): real {
    var top := q.OppositeSize(side);
    if top <= 0.0 then price
    else
      var impact := cfg.impactBps * (quantity / top) / 10000.0;
      price * (1.0 + if side.Bid? then impact else -impact)
  }

  function FillAtBest(s: Slot, quantity: real, q: Quote, cfg: Config): Action {
    if quantity <= 0.0 then Action(s, [], [])
    else if q.Opposite(s.order.side) <= 0.0 then Reject(s)
    else Book(s, Slipped(q.Opposite(s.order.side), quantity, s.order.side, q, cfg), quantity, cfg)
  }

  predicate Fillable(s: Slot, q: Quote) {
    s.order.kind.Market? ||
    (q.Opposite(s.order.side) > 0.0 &&
     if s.order.side.Bid? then s.order.price >= q.BestAsk() else s.order.price <= q.BestBid())
  }

  function FillPassiveOrCross(s: Slot, q: Quote, cfg: Config): Action {
    var remaining := s.order.quantity - s.filled;
    var top := q.OppositeSize(s.order.side);
    if remaining <= 0.0 then Action(s.(active := false), [], [])
    else if top <= 0.0 then Reject(s)
    else FillShare(s, Offered(s, q, cfg), q, cfg)
  }

  /** The part of the opposite size that trades against the queue and the order. */
  function Offered(s: Slot, q: Quote, cfg: Config): real {
    q.OppositeSize(s.order.side) * cfg.matchFraction
  }

  /** What is offered first uses up the queue ahead, then fills the order. */
  function FillShare(s: Slot, offered: real, q: Quote, cfg: Config): Action {
    var remaining := s.order.quantity - s.filled;
    var consumed := if s.queueAhead <= 0.0 then 0.0 else if offered > s.queueAhead then s.queueAhead else offered;
    var t := s.(queueAhead := s.queueAhead - consumed);
    var available := offered - consumed;
    if available <= 0.0 then Action(t, [], [])
    else FillAtBest(t, if available > remaining then remaining else available, q, cfg)
  }

  function Check(s: Slot, now: int, q: Quote, cfg: Config): Action {
    if !s.active || now < s.release then Action(s, [], [])
    else if s.order.kind.Market? then FillAtBest(s, s.order.quantity - s.filled, q, cfg)
    else if s.order.tif.Ioc? && !Fillable(s, q) then Cancel(s)
    else if Fillable(s, q) then FillPassiveOrCross(s, q, cfg)
    else Action(s, [], [])
  }

  function Latency(cfg: Config, id: nat): int {
    if cfg.latencyJitter <= 0 then cfg.baseLatency
    else cfg.baseLatency + id % (2 * cfg.latencyJitter + 1) - cfg.latencyJitter
  }

  /** Share of the resting size at the order's price, within the first eight levels of its side. */
  function QueueAhead(order: Order, levels: seq<Level>): real {
    if levels == [] then 0.0
    else if levels[0].price == order.price then levels[0].size * 0.6
    else QueueAhead(order, levels[1..])
  }

  function Eight(levels: seq<Level>): seq<Level> {
    if |levels| <= 8 then levels else levels[..8]
  }

  function Placed(ticket: nat, order: Order, now: int, q: Quote, cfg: Config): Slot {
    Slot(ticket, order, 0.0, 0.0, QueueAhead(order, Eight(if order.side.Bid? then q.bids else q.asks)),
         now + Latency(cfg, order.id), true, false)
  }

  /** A new order: taken at once when it is released and fillable, else left resting as a maker. */
  function Open(ticket: nat, order: Order, now: int, q: Quote, cfg: Config): Action {
    var s := Placed(ticket, order, now, q, cfg);
    if now >= s.release && (order.kind.Market? || Fillable(s, q)) then FillAtBest(s, order.quantity, q, cfg)
    else Action(s.(maker := true), [], [])
  }

  // ---------------------------------------------------------------- the pool

  /** `orders` lists the accepted orders by ticket. */
  datatype Pool = Pool(slots: seq<Slot>, ledger: Ledger, fills: seq<Fill>, updates: seq<Update>, orders: seq<Order>)

  function Post(l: Ledger, fills: seq<Fill>): Ledger
    decreases |fills|
  {
    if fills == [] then l else ApplyFill(Post(l, fills[..|fills| - 1]), fills[|fills| - 1])
  }

  function Act(p: Pool, i: nat, a: Action): Pool
    requires i < |p.slots|
  {
    p.(slots := p.slots[i := a.slot], ledger := Post(p.ledger, a.fills), fills := p.fills + a.fills,
       updates := p.updates + a.updates)
  }

  function FirstFree(slots: seq<Slot>): (i: nat)
    ensures i <= |slots| && (i < |slots| ==> !slots[i].active)
  {
    if slots == [] || !slots[0].active then 0 else 1 + FirstFree(slots[1..])
  }

  function Submit(p: Pool, order: Order, now: int, q: Quote, cfg: Config): (Pool, bool) {
    var i := FirstFree(p.slots);
    if i == |p.slots| then (p, false)
    else (Act(p, i, Open(|p.orders|, order, now, q, cfg)).(orders := p.orders + [order]), true)
  }

  function FindActive(slots: seq<Slot>, id: nat): (i: nat)
    ensures i <= |slots| && (i < |slots| ==> slots[i].active && slots[i].order.id == id)
  {
    if slots == [] || (slots[0].active && slots[0].order.id == id) then 0 else 1 + FindActive(slots[1..], id)
  }

  function CancelOrder(p: Pool, id: nat): (Pool, bool) {
    var i := FindActive(p.slots, id);
    if i == |p.slots| then (p, false) else (Act(p, i, Cancel(p.slots[i])), true)
  }

  function Name15(symbol: string): string {
    if |symbol| <= 15 then symbol else symbol[..15]
  }

  function CancelIfNamed(s: Slot, symbol: string): Action {
    if s.active && Name15(s.order.symbol) == Name15(symbol) then Cancel(s) else Action(s, [], [])
  }

  function CancelFrom(p: Pool, i: nat, symbol: string): Pool
    requires i <= |p.slots|
    decreases |p.slots| - i
  {
    if i == |p.slots| then p else CancelFrom(Act(p, i, CancelIfNamed(p.slots[i], symbol)), i + 1, symbol)
  }

  function CheckFrom(p: Pool, i: nat, now: int, q: Quote, cfg: Config): Pool
    requires i <= |p.slots|
    decreases |p.slots| - i
  {
    if i == |p.slots| then p else CheckFrom(Act(p, i, Check(p.slots[i], now, q, cfg)), i + 1, now, q, cfg)
  }

  datatype Op =
    | SubmitOp(order: Order, now: int, quote: Quote)
    | CancelOp(id: nat)
    | ReplaceOp(id: nat, order: Order, now: int, quote: Quote)
    | CancelAllOp(symbol: string)
    | CheckOp(now: int, quote: Quote)

  function Step(p: Pool, op: Op, cfg: Config): Pool {
    match op
    case SubmitOp(order, now, q) => Submit(p, order, now, q, cfg).0
    case CancelOp(id) => CancelOrder(p, id).0
    case ReplaceOp(id, order, now, q) =>
      var (canceled, found) := CancelOrder(p, id);
      if !found then p else Submit(canceled, order, now, q, cfg).0
    case CancelAllOp(symbol) => CancelFrom(p, 0, symbol)
    case CheckOp(now, q) => CheckFrom(p, 0, now, q, cfg)
  }

  const IDLE := Slot(0, Order(0, "", Unknown, Bid, Limit, Gtc, 0.0, 0.0), 0.0, 0.0, 0.0, 0, false, false)

  function EmptyPool(): Pool {
    Pool(seq(MAX_SHADOW_ORDERS, _ => IDLE), FLAT, [], [], [])
  }

  function Run(ops: seq<Op>, cfg: Config): Pool {
    if ops == [] then EmptyPool() else Step(Run(ops[..|ops| - 1], cfg), ops[|ops| - 1], cfg)
  }

  // ---------------------------------------------------------------- life of an order

  predicate Terminal(u: Update) {
    !u.state.PartiallyFilled?
  }

  predicate Live(s: Slot) {
    s.order.quantity > 0.0 && 0.0 <= s.filled < s.order.quantity
  }

  /** How much the update of an action, if any, says was filled. */
  function Reported(a: Action): real {
    if |a.updates| == 1 then a.updates[0].quantity else 0.0
  }

  /** Acting on a live slot sends at most one update, a terminal one exactly when the slot closes, never fills
      past the order's quantity, reports all it fills of a slot that stays open, and calls an order filled
      only when no more than the tolerance is missing. */
  ghost predicate GoodAction(s: Slot, a: Action) {
    && a.slot.ticket == s.ticket && a.slot.order == s.order && |a.updates| <= 1
    && (forall i :: 0 <= i < |a.updates| ==>
          a.updates[i].ticket == s.ticket && 0.0 <= a.updates[i].cumulative <= s.order.quantity
          && 0.0 <= a.updates[i].quantity <= a.slot.filled - s.filled
          && (a.updates[i].state.Filled? ==>
                s.filled + a.updates[i].quantity >= s.order.quantity - FILL_TOLERANCE))
    && (a.slot.active ==> Reported(a) == a.slot.filled - s.filled)
    && s.filled <= a.slot.filled
    && (if a.slot.active then Live(a.slot) && forall i :: 0 <= i < |a.updates| ==> !Terminal(a.updates[i])
        else |a.updates| == 1 && Terminal(a.updates[0]) && a.slot.filled <= s.order.quantity)
    && GoodFills(a.fills)
    && a.slot.filled - s.filled <= FilledBy(a.fills) + FILL_TOLERANCE
    && FilledBy(a.fills) <= a.slot.filled - s.filled
  }

  function FilledBy(fills: seq<Fill>): real {
    if fills == [] then 0.0 else FilledBy(fills[..|fills| - 1]) + fills[|fills| - 1].quantity
  }

  lemma {:induction false} BookIsGood(s: Slot, price: real, quantity: real, cfg: Config)
    requires s.active && Live(s) && 0.0 < quantity <= s.order.quantity - s.filled
    ensures GoodAction(s, Book(s, price, quantity, cfg))
  {
    var fills := Book(s, price, quantity, cfg).fills;
    assert fills[..|fills| - 1] == [];
  }

  lemma {:induction false} FillAtBestIsGood(s: Slot, quantity: real, q: Quote, cfg: Config)
    requires s.active && Live(s) && 0.0 < quantity <= s.order.quantity - s.filled
    ensures GoodAction(s, FillAtBest(s, quantity, q, cfg))
  {
    if q.Opposite(s.order.side) > 0.0 {
      BookIsGood(s, Slipped(q.Opposite(s.order.side), quantity, s.order.side, q, cfg), quantity, cfg);
    }
  }

  lemma {:induction false} ShareIsGood(s: Slot, offered: real, q: Quote, cfg: Config)
    requires s.active && Live(s)
    ensures GoodAction(s, FillShare(s, offered, q, cfg))
  {
    var remaining := s.order.quantity - s.filled;
    var consumed := if s.queueAhead <= 0.0 then 0.0 else if offered > s.queueAhead then s.queueAhead else offered;
    var t := s.(queueAhead := s.queueAhead - consumed);
    var available := offered - consumed;
    if available > 0.0 {
      var quantity := if available > remaining then remaining else available;
      FillAtBestIsGood(t, quantity, q, cfg);
      QueueAside(s, t, FillAtBest(t, quantity, q, cfg));
    }
  }

  lemma {:induction false} PassiveIsGood(s: Slot, q: Quote, cfg: Config)
    requires s.active && Live(s)
    ensures GoodAction(s, FillPassiveOrCross(s, q, cfg))
  {
    ShareIsGood(s, Offered(s, q, cfg), q, cfg);
  }

  /** The queue position plays no part in whether an action is good. */
  lemma {:induction false} QueueAside(s: Slot, t: Slot, a: Action)
    requires t == s.(queueAhead := t.queueAhead) && GoodAction(t, a)
    ensures GoodAction(s, a)
  {
  }

  /** The queue ahead is served before the order: it never goes negative, is gone before anything fills, and
      queue and fills together take no more than was offered. */
  lemma {:induction false} QueueServedFirst(s: Slot, offered: real, q: Quote, cfg: Config)
    requires s.active && Live(s) && s.queueAhead >= 0.0 && offered >= 0.0
    ensures var a := FillShare(s, offered, q, cfg);
            && a.slot.queueAhead >= 0.0 && (a.fills != [] ==> a.slot.queueAhead == 0.0)
            && FilledBy(a.fills) + (s.queueAhead - a.slot.queueAhead) <= offered
  {
    var fills := FillShare(s, offered, q, cfg).fills;
    if fills != [] {
      assert fills[..|fills| - 1] == [];
    }
  }

  lemma {:induction false} CheckIsGood(s: Slot, now: int, q: Quote, cfg: Config)
    requires s.active && Live(s)
    ensures GoodAction(s, Check(s, now, q, cfg))
  {
    FillAtBestIsGood(s, s.order.quantity - s.filled, q, cfg);
    PassiveIsGood(s, q, cfg);
  }

  lemma {:induction false} OpenIsGood(ticket: nat, order: Order, now: int, q: Quote, cfg: Config)
    requires order.quantity > 0.0
    ensures GoodAction(Placed(ticket, order, now, q, cfg), Open(ticket, order, now, q, cfg))
  {
    FillAtBestIsGood(Placed(ticket, order, now, q, cfg), order.quantity, q, cfg);
  }

  function ActiveCount(slots: seq<Slot>): nat {
    if slots == [] then 0
    else ActiveCount(slots[..|slots| - 1]) + if slots[|slots| - 1].active then 1 else 0
  }

  function TerminalCount(updates: seq<Update>): nat {
    if updates == [] then 0
    else TerminalCount(updates[..|updates| - 1]) + if Terminal(updates[|updates| - 1]) then 1 else 0
  }

  /** How much the updates of one ticket say was filled, all told. */
  function QuantityOf(updates: seq<Update>, ticket: nat): real {
    if updates == [] then 0.0
    else
      var u := updates[|updates| - 1];
      QuantityOf(updates[..|updates| - 1], ticket) + if u.ticket == ticket then u.quantity else 0.0
  }

  ghost predicate SlotsOk(p: Pool) {
    && (forall i :: 0 <= i < |p.slots| && p.slots[i].active ==>
          Live(p.slots[i]) && p.slots[i].ticket < |p.orders| && p.orders[p.slots[i].ticket] == p.slots[i].order)
    && (forall i, j :: 0 <= i < j < |p.slots| && p.slots[i].active && p.slots[j].active ==>
          p.slots[i].ticket != p.slots[j].ticket)
  }

  /** Every order's updates end with its first terminal one, and no open order has had one. */
  ghost predicate UpdatesOk(p: Pool) {
    && (forall i :: 0 <= i < |p.updates| ==> p.updates[i].ticket < |p.orders|)
    && (forall i, j :: 0 <= i < j < |p.updates| && p.updates[i].ticket == p.updates[j].ticket ==>
          !Terminal(p.updates[i]))
    && (forall i, k :: 0 <= i < |p.slots| && 0 <= k < |p.updates| ==>
          p.slots[i].active && p.updates[k].ticket == p.slots[i].ticket ==> !Terminal(p.updates[k]))
  }

  /** No slot, open or closed, is filled past its order's quantity, and no update reports more than that. */
  ghost predicate NeverOverfilled(p: Pool) {
    && (forall i :: 0 <= i < |p.slots| ==> 0.0 <= p.slots[i].filled <= p.slots[i].order.quantity)
    && (forall k :: 0 <= k < |p.updates| && p.updates[k].ticket < |p.orders| ==>
          0.0 <= p.updates[k].cumulative <= p.orders[p.updates[k].ticket].quantity)
  }

  /** All that was reported filled of an order adds up to no more than its quantity; of an open one, to what
      its slot says; of one reported as filled, to its quantity but for the tolerance. */
  ghost predicate ReportsAddUp(p: Pool) {
    OrdersAddUp(p.orders, p.updates) && SlotsAddUp(p.slots, p.updates) && FilledAddUp(p.orders, p.updates)
  }

  ghost predicate OrdersAddUp(orders: seq<Order>, updates: seq<Update>) {
    forall t :: 0 <= t < |orders| ==> QuantityOf(updates, t) <= orders[t].quantity
  }

  ghost predicate SlotsAddUp(slots: seq<Slot>, updates: seq<Update>) {
    forall i :: 0 <= i < |slots| && slots[i].active ==> QuantityOf(updates, slots[i].ticket) == slots[i].filled
  }

  ghost predicate FilledAddUp(orders: seq<Order>, updates: seq<Update>) {
    forall k :: 0 <= k < |updates| && updates[k].state.Filled? && updates[k].ticket < |orders| ==>
      QuantityOf(updates, updates[k].ticket) >= orders[updates[k].ticket].quantity - FILL_TOLERANCE
  }

  ghost predicate Inv(p: Pool) {
    && SlotsOk(p) && UpdatesOk(p) && NeverOverfilled(p) && ReportsAddUp(p)
    && ActiveCount(p.slots) + TerminalCount(p.updates) == |p.orders|
    && GoodFills(p.fills) && p.ledger == ApplyFills(FLAT, p.fills)
  }

  lemma {:induction false} ActiveCountUpdate(slots: seq<Slot>, i: nat, s: Slot)
    requires i < |slots|
    ensures ActiveCount(slots[i := s]) ==
            ActiveCount(slots) - (if slots[i].active then 1 else 0) + (if s.active then 1 else 0)
  {
    var last := |slots| - 1;
    if i < last {
      ActiveCountUpdate(slots[..last], i, s);
      assert slots[i := s][..last] == slots[..last][i := s];
    } else {
      assert slots[i := s][..last] == slots[..last];
    }
  }

  lemma {:induction false} PostFills(fills: seq<Fill>, more: seq<Fill>)
    ensures Post(ApplyFills(FLAT, fills), more) == ApplyFills(FLAT, fills + more)
    decreases |more|
  {
    if more == [] {
      assert fills + more == fills;
    } else {
      PostFills(fills, more[..|more| - 1]);
      assert (fills + more)[..|fills + more| - 1] == fills + more[..|more| - 1];
    }
  }

  lemma {:induction false} ActKeepsSlots(p: Pool, i: nat, a: Action)
    requires SlotsOk(p) && i < |p.slots| && p.slots[i].active && GoodAction(p.slots[i], a)
    ensures SlotsOk(Act(p, i, a))
  {
  }

  lemma {:induction false} ActKeepsUpdates(p: Pool, i: nat, a: Action)
    requires SlotsOk(p) && UpdatesOk(p) && i < |p.slots| && p.slots[i].active && GoodAction(p.slots[i], a)
    ensures UpdatesOk(Act(p, i, a))
  {
  }

  lemma {:induction false} ActKeepsQuantities(p: Pool, i: nat, a: Action)
    requires SlotsOk(p) && UpdatesOk(p) && NeverOverfilled(p) && i < |p.slots| && p.slots[i].active
    requires GoodAction(p.slots[i], a)
    ensures NeverOverfilled(Act(p, i, a))
  {
  }

  lemma {:induction false} ReportsOfOne(updates: seq<Update>, more: seq<Update>, ticket: nat)
    requires |more| <= 1
    ensures QuantityOf(updates + more, ticket) ==
            QuantityOf(updates, ticket) + if |more| == 1 && more[0].ticket == ticket then more[0].quantity else 0.0
  {
    if more == [] {
      assert updates + more == updates;
    } else {
      assert (updates + more)[..|updates|] == updates;
    }
  }

  lemma {:induction false} ActKeepsReports(p: Pool, i: nat, a: Action)
    requires SlotsOk(p) && UpdatesOk(p) && ReportsAddUp(p)
    requires i < |p.slots| && p.slots[i].active && GoodAction(p.slots[i], a)
    ensures ReportsAddUp(Act(p, i, a))
  {
    OrdersStillAddUp(p, i, a);
    SlotsStillAddUp(p, i, a);
    FilledStillAddUp(p, i, a);
  }

  lemma {:induction false} FilledStillAddUp(p: Pool, i: nat, a: Action)
    requires SlotsOk(p) && UpdatesOk(p) && ReportsAddUp(p)
    requires i < |p.slots| && p.slots[i].active && GoodAction(p.slots[i], a)
    ensures FilledAddUp(p.orders, p.updates + a.updates)
  {
    var updates := p.updates + a.updates;
    forall k | 0 <= k < |updates| && updates[k].state.Filled? && updates[k].ticket < |p.orders|
      ensures QuantityOf(updates, updates[k].ticket) >= p.orders[updates[k].ticket].quantity - FILL_TOLERANCE
    {
      ReportsOfOne(p.updates, a.updates, updates[k].ticket);
      if k < |p.updates| {
        assert updates[k] == p.updates[k] && Terminal(p.updates[k]);
      } else {
        assert updates[k] == a.updates[k - |p.updates|];
      }
    }
  }

  lemma {:induction false} OrdersStillAddUp(p: Pool, i: nat, a: Action)
    requires SlotsOk(p) && ReportsAddUp(p) && i < |p.slots| && p.slots[i].active && GoodAction(p.slots[i], a)
    ensures OrdersAddUp(p.orders, p.updates + a.updates)
  {
    forall t | 0 <= t < |p.orders|
      ensures QuantityOf(p.updates + a.updates, t) <= p.orders[t].quantity
    {
      OrderAddsUp(p, i, a, t);
    }
  }

  lemma {:induction false} SlotsStillAddUp(p: Pool, i: nat, a: Action)
    requires SlotsOk(p) && ReportsAddUp(p) && i < |p.slots| && p.slots[i].active && GoodAction(p.slots[i], a)
    ensures SlotsAddUp(p.slots[i := a.slot], p.updates + a.updates)
  {
    var slots := p.slots[i := a.slot];
    forall j | 0 <= j < |slots| && slots[j].active
      ensures QuantityOf(p.updates + a.updates, slots[j].ticket) == slots[j].filled
    {
      SlotAddsUp(p, i, a, j);
    }
  }

  lemma {:induction false} SlotAddsUp(p: Pool, i: nat, a: Action, j: nat)
    requires SlotsOk(p) && ReportsAddUp(p) && i < |p.slots| && p.slots[i].active && GoodAction(p.slots[i], a)
    requires j < |p.slots| && p.slots[i := a.slot][j].active
    ensures var s := p.slots[i := a.slot][j]; QuantityOf(p.updates + a.updates, s.ticket) == s.filled
  {
    var s := p.slots[i := a.slot][j];
    ReportsOfOne(p.updates, a.updates, s.ticket);
    assert j != i ==> s == p.slots[j] && s.ticket != p.slots[i].ticket;
  }

  lemma {:induction false} OrderAddsUp(p: Pool, i: nat, a: Action, t: nat)
    requires SlotsOk(p) && ReportsAddUp(p) && i < |p.slots| && p.slots[i].active && GoodAction(p.slots[i], a)
    requires t < |p.orders|
    ensures QuantityOf(p.updates + a.updates, t) <= p.orders[t].quantity
  {
    ReportsOfOne(p.updates, a.updates, t);
    if t == p.slots[i].ticket {
      assert a.slot.filled <= p.orders[t].quantity;
    }
  }

  lemma {:induction false} ActCounts(p: Pool, i: nat, a: Action)
    requires i < |p.slots| && p.slots[i].active && GoodAction(p.slots[i], a)
    ensures ActiveCount(Act(p, i, a).slots) + TerminalCount(Act(p, i, a).updates) ==
            ActiveCount(p.slots) + TerminalCount(p.updates)
  {
    ActiveCountUpdate(p.slots, i, a.slot);
    if a.updates == [] {
      assert p.updates + a.updates == p.updates;
    } else {
      assert (p.updates + a.updates)[..|p.updates|] == p.updates;
    }
  }

  /** Acting well on an open slot keeps the pool in order. */
  lemma {:induction false} ActKeepsInv(p: Pool, i: nat, a: Action)
    requires Inv(p) && i < |p.slots| && p.slots[i].active && GoodAction(p.slots[i], a)
    ensures Inv(Act(p, i, a))
  {
    ActKeepsSlots(p, i, a);
    ActKeepsUpdates(p, i, a);
    ActKeepsQuantities(p, i, a);
    ActKeepsReports(p, i, a);
    ActCounts(p, i, a);
    PostFills(p.fills, a.fills);
  }

  lemma {:induction false} IdleAction(p: Pool, i: nat)
    requires i < |p.slots|
    ensures Act(p, i, Action(p.slots[i], [], [])) == p
  {
    assert p.slots[i := p.slots[i]] == p.slots;
    assert p.fills + [] == p.fills && p.updates + [] == p.updates;
  }

  lemma {:induction false} SubmitKeepsInv(p: Pool, order: Order, now: int, q: Quote, cfg: Config)
    requires Inv(p) && order.quantity > 0.0
    ensures Inv(Submit(p, order, now, q, cfg).0)
  {
    var i := FirstFree(p.slots);
    if i < |p.slots| {
      var s := Placed(|p.orders|, order, now, q, cfg);
      var a := Open(|p.orders|, order, now, q, cfg);
      OpenIsGood(|p.orders|, order, now, q, cfg);
      AdmitKeepsInv(p, i, s, a);
      SubmitIsAdmit(p, order, now, q, cfg, i, s, a);
    }
  }

  function Reserved(p: Pool, i: nat, s: Slot): Pool
    requires i < |p.slots|
  {
    p.(slots := p.slots[i := s], orders := p.orders + [s.order])
  }

  lemma {:induction false} SubmitIsAdmit(p: Pool, order: Order, now: int, q: Quote, cfg: Config,
                                         i: nat, s: Slot, a: Action)
    requires i == FirstFree(p.slots) < |p.slots|
    requires s == Placed(|p.orders|, order, now, q, cfg) && a == Open(|p.orders|, order, now, q, cfg)
    ensures Submit(p, order, now, q, cfg).0 == Act(Reserved(p, i, s), i, a)
  {
    assert p.slots[i := s][i := a.slot] == p.slots[i := a.slot];
  }

  lemma {:induction false} AdmitKeepsInv(p: Pool, i: nat, s: Slot, a: Action)
    requires Inv(p) && i < |p.slots| && !p.slots[i].active
    requires s.active && Live(s) && s.filled == 0.0 && s.ticket == |p.orders| && GoodAction(s, a)
    ensures Inv(Act(Reserved(p, i, s), i, a))
  {
    ReserveKeepsInv(p, i, s);
    ActKeepsInv(Reserved(p, i, s), i, a);
  }

  lemma {:induction false} NotReported(updates: seq<Update>, ticket: nat)
    requires forall k :: 0 <= k < |updates| ==> updates[k].ticket != ticket
    ensures QuantityOf(updates, ticket) == 0.0
  {
    if updates != [] { NotReported(updates[..|updates| - 1], ticket); }
  }

  /** Putting a new order in a free slot keeps the pool in order. */
  lemma {:induction false} ReserveKeepsInv(p: Pool, i: nat, s: Slot)
    requires Inv(p) && i < |p.slots| && !p.slots[i].active
    requires s.active && Live(s) && s.filled == 0.0 && s.ticket == |p.orders|
    ensures Inv(Reserved(p, i, s))
  {
    ActiveCountUpdate(p.slots, i, s);
    ReserveKeepsSlots(p, i, s);
    ReserveKeepsReports(p, i, s);
  }

  lemma {:induction false} ReserveKeepsSlots(p: Pool, i: nat, s: Slot)
    requires SlotsOk(p) && UpdatesOk(p) && NeverOverfilled(p) && i < |p.slots| && !p.slots[i].active
    requires s.active && Live(s) && s.ticket == |p.orders|
    ensures var r := Reserved(p, i, s); SlotsOk(r) && UpdatesOk(r) && NeverOverfilled(r)
  {
  }

  lemma {:induction false} ReserveKeepsReports(p: Pool, i: nat, s: Slot)
    requires SlotsOk(p) && UpdatesOk(p) && ReportsAddUp(p) && i < |p.slots| && !p.slots[i].active
    requires s.active && Live(s) && s.filled == 0.0 && s.ticket == |p.orders|
    ensures ReportsAddUp(Reserved(p, i, s))
  {
    NotReported(p.updates, |p.orders|);
  }

  lemma {:induction false} CancelKeepsInv(p: Pool, id: nat)
    requires Inv(p)
    ensures Inv(CancelOrder(p, id).0)
  {
    var i := FindActive(p.slots, id);
    if i < |p.slots| {
      ActKeepsInv(p, i, Cancel(p.slots[i]));
    }
  }

  lemma {:induction false} CancelNamedKeepsInv(p: Pool, i: nat, symbol: string)
    requires Inv(p) && i < |p.slots|
    ensures Inv(Act(p, i, CancelIfNamed(p.slots[i], symbol)))
  {
    if p.slots[i].active && Name15(p.slots[i].order.symbol) == Name15(symbol) {
      ActKeepsInv(p, i, Cancel(p.slots[i]));
    } else {
      IdleAction(p, i);
    }
  }

  lemma {:induction false} CancelFromKeepsInv(p: Pool, i: nat, symbol: string)
    requires Inv(p) && i <= |p.slots|
    ensures Inv(CancelFrom(p, i, symbol))
    decreases |p.slots| - i
  {
    if i < |p.slots| {
      CancelNamedKeepsInv(p, i, symbol);
      CancelFromKeepsInv(Act(p, i, CancelIfNamed(p.slots[i], symbol)), i + 1, symbol);
    }
  }

  lemma {:induction false} CheckFromKeepsInv(p: Pool, i: nat, now: int, q: Quote, cfg: Config)
    requires Inv(p) && i <= |p.slots|
    ensures Inv(CheckFrom(p, i, now, q, cfg))
    decreases |p.slots| - i
  {
    if i < |p.slots| {
      if p.slots[i].active {
        CheckIsGood(p.slots[i], now, q, cfg);
        ActKeepsInv(p, i, Check(p.slots[i], now, q, cfg));
      } else {
        IdleAction(p, i);
      }
      CheckFromKeepsInv(Act(p, i, Check(p.slots[i], now, q, cfg)), i + 1, now, q, cfg);
    }
  }

  predicate PositiveOrder(op: Op) {
    match op
    case SubmitOp(order, _, _) => order.quantity > 0.0
    case ReplaceOp(_, order, _, _) => order.quantity > 0.0
    case _ => true
  }

  lemma {:induction false} ReplaceKeepsInv(p: Pool, id: nat, order: Order, now: int, q: Quote, cfg: Config)
    requires Inv(p) && order.quantity > 0.0
    ensures Inv(Submit(CancelOrder(p, id).0, order, now, q, cfg).0)
  {
    CancelKeepsInv(p, id);
    SubmitKeepsInv(CancelOrder(p, id).0, order, now, q, cfg);
  }

  lemma {:induction false} StepKeepsInv(p: Pool, op: Op, cfg: Config)
    requires Inv(p) && PositiveOrder(op)
    ensures Inv(Step(p, op, cfg))
  {
    match op
    case SubmitOp(order, now, q) => SubmitKeepsInv(p, order, now, q, cfg);
    case CancelOp(id) => CancelKeepsInv(p, id);
    case ReplaceOp(id, order, now, q) => ReplaceKeepsInv(p, id, order, now, q, cfg);
    case CancelAllOp(symbol) => CancelFromKeepsInv(p, 0, symbol);
    case CheckOp(now, q) => CheckFromKeepsInv(p, 0, now, q, cfg);
  }

  /** Main result: over any run of submits, cancels, replacements and fill checks, every accepted order
      gets at most one terminal update and nothing after it; no order, open or closed, is filled or
      reported past its quantity, update by update and added up; the reports of an order called filled add
      up to its quantity but for one tolerance, those of an open one to what its slot holds; the open slots
      are the accepted orders less the terminated ones, and the ledger is exactly the fold of the fills. */
  lemma {:induction false} OrderLifecycle(ops: seq<Op>, cfg: Config)
    requires forall i :: 0 <= i < |ops| ==> PositiveOrder(ops[i])
    ensures Inv(Run(ops, cfg))
    decreases |ops|
  {
    if ops == [] {
      EmptyIsOk();
    } else {
      OrderLifecycle(ops[..|ops| - 1], cfg);
      StepKeepsInv(Run(ops[..|ops| - 1], cfg), ops[|ops| - 1], cfg);
    }
  }

  lemma {:induction false} EmptyIsOk()
    ensures Inv(EmptyPool())
  {
    IdleIsOk(EmptyPool().slots);
  }

  lemma {:induction false} IdleIsOk(slots: seq<Slot>)
    requires forall i :: 0 <= i < |slots| ==> slots[i] == IDLE
    ensures Inv(Pool(slots, FLAT, [], [], []))
  {
    IdleSlotsOk(slots);
    IdleReportsOk(slots);
    NoneActive(slots);
  }

  lemma {:induction false} IdleReportsOk(slots: seq<Slot>)
    requires forall i :: 0 <= i < |slots| ==> !slots[i].active
    ensures ReportsAddUp(Pool(slots, FLAT, [], [], []))
  {
  }

  lemma {:induction false} IdleSlotsOk(slots: seq<Slot>)
    requires forall i :: 0 <= i < |slots| ==> slots[i] == IDLE
    ensures var p := Pool(slots, FLAT, [], [], []); SlotsOk(p) && UpdatesOk(p) && NeverOverfilled(p)
  {
  }

  lemma {:induction false} NoneActive(slots: seq<Slot>)
    requires forall i :: 0 <= i < |slots| ==> !slots[i].active
    ensures ActiveCount(slots) == 0
  {
    if slots != [] {
      NoneActive(slots[..|slots| - 1]);
    }
  }

  // ---------------------------------------------------------------- the connector

  /** Changing a slot and then acting on it is acting on the changed slot. */
  lemma {:induction false} ActTwice(p: Pool, i: nat, s: Slot, a: Action)
    requires i < |p.slots|
    ensures Act(Act(p, i, Action(s, [], [])), i, a) == Act(p, i, a)
  {
    assert p.slots[i := s][i := a.slot] == p.slots[i := a.slot];
    assert p.fills + [] == p.fills && p.updates + [] == p.updates;
    assert Post(p.ledger, []) == p.ledger;
  }

  lemma {:induction false} PostedOne(l: Ledger, f: Fill)
    ensures Post(l, [f]) == ApplyFill(l, f)
  {
    assert [f][..0] == [];
  }

  class ShadowConnector {
    const cfg: Config
    const orders: array<Slot>
    var netPosition: real
    var avgEntryPrice: real
    var realizedPnl: real
    var totalFees: real
    var netCashflow: real
    var fills: seq<Fill>
    var updates: seq<Update>
    var accepted: nat
    ghost var placed: seq<Order>

    ghost predicate Valid()
      reads this
    {
      orders.Length == MAX_SHADOW_ORDERS && accepted == |placed|
    }

    ghost function View(): Pool
      reads this, orders
    {
      Pool(orders[..], Books(), fills, updates, placed)
    }

    constructor (cfg: Config)
      ensures Valid() && fresh(orders) && View() == EmptyPool()
    {
      this.cfg := cfg;
      orders := new Slot[MAX_SHADOW_ORDERS](_ => IDLE);
      netPosition, avgEntryPrice, realizedPnl, totalFees, netCashflow := 0.0, 0.0, 0.0, 0.0, 0.0;
      fills, updates, accepted, placed := [], [], 0, [];
      new;
      assert orders[..] == EmptyPool().slots;
    }

    method ApplyPositionFill(f: Fill)
      modifies this`netPosition, this`avgEntryPrice, this`realizedPnl
      ensures Books() == MovePosition(old(Books()), f)
    {
      var signed := f.Signed();
      var prior := netPosition;
      if prior == 0.0 || SameSign(prior, signed) {
        var total := Abs(prior) + f.quantity;
        avgEntryPrice :=
          if total > 0.0 then (avgEntryPrice * Abs(prior) + f.price * f.quantity) / total else 0.0;
        netPosition := prior + signed;
        return;
      }
      var closing := MinReal(Abs(prior), f.quantity);
      if prior > 0.0 {
        realizedPnl := realizedPnl + (f.price - avgEntryPrice) * closing;
      } else {
        realizedPnl := realizedPnl + (avgEntryPrice - f.price) * closing;
      }
      netPosition := prior + signed;
      if Abs(netPosition) <= POSITION_EPSILON {
        netPosition := 0.0;
      }
      if netPosition == 0.0 {
        avgEntryPrice := 0.0;
      } else if (netPosition > 0.0) != (prior > 0.0) {
        avgEntryPrice := f.price;
      }
    }

    ghost function Books(): Ledger
      reads this
    {
      Ledger(netPosition, avgEntryPrice, realizedPnl, totalFees, netCashflow)
    }

    method ApplyOne(f: Fill)
      modifies this`netPosition, this`avgEntryPrice, this`realizedPnl, this`totalFees, this`netCashflow
      ensures Books() == ApplyFill(old(Books()), f)
    {
      netCashflow := netCashflow + f.Cashflow();
      totalFees := totalFees + f.Fee();
      ApplyPositionFill(f);
    }

    /** Sends out the closing update of a slot and frees it. */
    method CloseSlot(i: nat, state: OrderState)
      requires Valid() && i < MAX_SHADOW_ORDERS
      modifies this`updates, orders
      ensures Valid()
      ensures View() == Act(old(View()), i, var s := old(orders[i]);
                                            Action(s.(active := false), [], [Report(s, state)]))
    {
      updates := updates + [Report(orders[i], state)];
      orders[i] := orders[i].(active := false);
      assert fills + [] == fills;
    }

    /** One fill: the slot, the money and the update that tells of it. */
    method RecordFill(i: nat, price: real, quantity: real)
      requires Valid() && i < MAX_SHADOW_ORDERS
      modifies this, orders
      ensures Valid() && accepted == old(accepted) && placed == old(placed)
      ensures View() == Act(old(View()), i, Book(old(orders[i]), price, quantity, cfg))
    {
      if quantity <= 0.0 {
        IdleAction(View(), i);
        return;
      }
      orders[i] := orders[i].(filled := orders[i].filled + quantity, notional := orders[i].notional + price * quantity);
      if orders[i].filled >= orders[i].order.quantity - FILL_TOLERANCE {
        orders[i] := orders[i].(filled := orders[i].order.quantity, active := false);
      }
      var s := orders[i];
      var f := Fill(s.order.side, quantity, price, FeeBps(cfg, s));
      ApplyOne(f);
      PostedOne(old(Books()), f);
      fills := fills + [f];
      var state := if s.filled >= s.order.quantity then Filled else PartiallyFilled;
      updates := updates + [Update(s.ticket, s.order.id, state, quantity, s.filled)];
    }

    method FillBest(i: nat, quantity: real, q: Quote)
      requires Valid() && i < MAX_SHADOW_ORDERS
      modifies this, orders
      ensures Valid() && accepted == old(accepted) && placed == old(placed)
      ensures View() == Act(old(View()), i, FillAtBest(old(orders[i]), quantity, q, cfg))
    {
      if quantity <= 0.0 {
        IdleAction(View(), i);
        return;
      }
      var side := orders[i].order.side;
      var price := q.Opposite(side);
      if price <= 0.0 {
        CloseSlot(i, Rejected);
        return;
      }
      RecordFill(i, Slipped(price, quantity, side, q, cfg), quantity);
    }

    /** Serves the queue ahead first, then fills what is left for the order. */
    method FillPassive(i: nat, q: Quote)
      requires Valid() && i < MAX_SHADOW_ORDERS
      modifies this, orders
      ensures Valid() && accepted == old(accepted) && placed == old(placed)
      ensures View() == Act(old(View()), i, FillPassiveOrCross(old(orders[i]), q, cfg))
    {
      var remaining := orders[i].order.quantity - orders[i].filled;
      if remaining <= 0.0 {
        orders[i] := orders[i].(active := false);
        assert fills + [] == fills && updates + [] == updates;
        return;
      }
      if q.OppositeSize(orders[i].order.side) <= 0.0 {
        CloseSlot(i, Rejected);
        return;
      }
      FillFromOffer(i, Offered(orders[i], q, cfg), q);
    }

    method FillFromOffer(i: nat, offered: real, q: Quote)
      requires Valid() && i < MAX_SHADOW_ORDERS
      modifies this, orders
      ensures Valid() && accepted == old(accepted) && placed == old(placed)
      ensures View() == Act(old(View()), i, FillShare(old(orders[i]), offered, q, cfg))
    {
      ghost var before := View();
      var available := offered;
      if orders[i].queueAhead > 0.0 {
        var consumed := if available > orders[i].queueAhead then orders[i].queueAhead else available;
        orders[i] := orders[i].(queueAhead := orders[i].queueAhead - consumed);
        available := available - consumed;
      }
      assert fills + [] == fills && updates + [] == updates;
      assert View() == Act(before, i, Action(orders[i], [], []));
      if available <= 0.0 {
        return;
      }
      var remaining := orders[i].order.quantity - orders[i].filled;
      var quantity := if available > remaining then remaining else available;
      ActTwice(before, i, orders[i], FillAtBest(orders[i], quantity, q, cfg));
      FillBest(i, quantity, q);
    }

    /** One slot of a fill check. */
    method CheckSlot(i: nat, now: int, q: Quote)
      requires Valid() && i < MAX_SHADOW_ORDERS
      modifies this, orders
      ensures Valid() && accepted == old(accepted) && placed == old(placed)
      ensures View() == Act(old(View()), i, Check(old(orders[i]), now, q, cfg))
    {
      IdleAction(View(), i);
      if !orders[i].active || now < orders[i].release {
        return;
      }
      if orders[i].order.kind.Market? {
        FillBest(i, orders[i].order.quantity - orders[i].filled, q);
        return;
      }
      var fillable := Fillable(orders[i], q);
      if orders[i].order.tif.Ioc? && !fillable {
        CloseSlot(i, Canceled);
        return;
      }
      if fillable {
        FillPassive(i, q);
      }
    }

    method SubmitOrder(order: Order, now: int, q: Quote) returns (ok: bool)
      requires Valid()
      modifies this, orders
      ensures Valid() && (View(), ok) == Submit(old(View()), order, now, q, cfg)
    {
      var i := 0;
      while i < orders.Length && orders[i].active
        invariant 0 <= i <= orders.Length && FirstFree(orders[..]) == i + FirstFree(orders[i..])
      {
        assert orders[i..][1..] == orders[i + 1..];
        i := i + 1;
      }
      if i == orders.Length {
        return false;
      }
      ghost var before := View();
      var s := Placed(accepted, order, now, q, cfg);
      orders[i] := s;
      assert fills + [] == fills && updates + [] == updates;
      assert View() == Act(before, i, Action(s, [], []));
      if now >= s.release && (order.kind.Market? || Fillable(s, q)) {
        ActTwice(before, i, s, FillAtBest(s, order.quantity, q, cfg));
        FillBest(i, order.quantity, q);
      } else {
        ActTwice(before, i, s, Action(s.(maker := true), [], []));
        orders[i] := orders[i].(maker := true);
      }
      accepted := accepted + 1;
      placed := placed + [order];
      return true;
    }

    method CancelOne(id: nat) returns (ok: bool)
      requires Valid()
      modifies this, orders
      ensures Valid() && (View(), ok) == CancelOrder(old(View()), id)
    {
      var i := 0;
      while i < orders.Length && !(orders[i].active && orders[i].order.id == id)
        invariant 0 <= i <= orders.Length && FindActive(orders[..], id) == i + FindActive(orders[i..], id)
      {
        assert orders[i..][1..] == orders[i + 1..];
        i := i + 1;
      }
      if i == orders.Length {
        return false;
      }
      CloseSlot(i, Canceled);
      return true;
    }

    method CancelAll(symbol: string)
      requires Valid()
      modifies this, orders
      ensures Valid() && View() == CancelFrom(old(View()), 0, symbol)
    {
      for i := 0 to orders.Length
        invariant Valid() && CancelFrom(View(), i, symbol) == CancelFrom(old(View()), 0, symbol)
      {
        IdleAction(View(), i);
        if orders[i].active && Name15(orders[i].order.symbol) == Name15(symbol) {
          CloseSlot(i, Canceled);
        }
      }
    }

    method CheckFills(now: int, q: Quote)
      requires Valid()
      modifies this, orders
      ensures Valid() && View() == CheckFrom(old(View()), 0, now, q, cfg)
    {
      for i := 0 to orders.Length
        invariant Valid() && CheckFrom(View(), i, now, q, cfg) == CheckFrom(old(View()), 0, now, q, cfg)
      {
        CheckSlot(i, now, q);
      }
    }

    method Perform(op: Op)
      requires Valid()
      modifies this, orders
      ensures Valid() && View() == Step(old(View()), op, cfg)
    {
      match op
      case SubmitOp(order, now, q) =>
        var _ := SubmitOrder(order, now, q);
      case CancelOp(id) =>
        var _ := CancelOne(id);
      case ReplaceOp(id, order, now, q) =>
        var found := CancelOne(id);
        if found {
          var _ := SubmitOrder(order, now, q);
        }
      case CancelAllOp(symbol) => CancelAll(symbol);
      case CheckOp(now, q) => CheckFills(now, q);
    }

    method ActiveOrders() returns (n: nat)
      requires Valid()
      ensures n == ActiveCount(orders[..])
    {
      n := 0;
      for i := 0 to orders.Length
        invariant n == ActiveCount(orders[..i])
      {
        assert orders[..i + 1][..i] == orders[..i];
        if orders[i].active {
          n := n + 1;
        }
      }
      assert orders[..orders.Length] == orders[..];
    }
  }
}
