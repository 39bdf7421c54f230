/** The prices the shadow pool fills at: never better than the touch, past a limit exactly when the slippage
    outgrows it, and positive, which is what the accounting needs, exactly when sells are small enough. */
module ShadowPrices {
  import opened Common
  import opened ShadowLedger
  import opened ShadowPool

  // ---------------------------------------------------------------- no fill flatters the strategy

  /** The best price a buy or a sale can trade at, the first ask or the first bid, and the size shown there; zero
      if that side is empty. */
  function Touch(side: Side, q: Quote): real {
    var levels := if side == Bid then q.asks else q.bids;
    if |levels| == 0 then 0.0 else levels[0].price
  }

  function TopSize(side: Side, q: Quote): real {
    var levels := if side == Bid then q.asks else q.bids;
    if |levels| == 0 then 0.0 else levels[0].size
  }

  /** A market order, or a limit that the touch satisfies. */
  predicate Reaches(order: Order, q: Quote) {
    order.kind == Market
    || (Touch(order.side, q) > 0.0
        && if order.side == Bid then Touch(Bid, q) <= order.price else order.price <= Touch(Ask, q))
  }

  ghost predicate Adverse(f: Fill, side: Side, q: Quote) {
    f.side == side && f.quantity > 0.0 && Touch(side, q) > 0.0
    && if side == Bid then f.price >= Touch(Bid, q) else f.price <= Touch(Ask, q)
  }

  ghost predicate AllAdverse(fills: seq<Fill>, side: Side, q: Quote) {
    forall i :: 0 <= i < |fills| ==> Adverse(fills[i], side, q)
  }

  lemma {:induction false} SlippedIsAdverse(price: real, impactBps: real, share: real)
    requires price > 0.0 && impactBps >= 0.0 && share >= 0.0
    ensures var impact := impactBps * share / 10000.0;
            price * (1.0 + impact) >= price && price * (1.0 + -impact) <= price
            && (impactBps > 0.0 && share > 0.0 ==> price * (1.0 + impact) > price)
  {
    var x := impactBps * share;
    assert x >= 0.0;
    Product(price, x / 10000.0);
  }

  lemma {:induction false} Product(a: real, b: real)
    requires a > 0.0 && b >= 0.0
    ensures a * (1.0 + b) >= a && a * (1.0 + -b) <= a && (b > 0.0 ==> a * (1.0 + b) > a)
  {
    assert a * (1.0 + b) == a + a * b && a * (1.0 + -b) == a - a * b;
  }

  lemma {:induction false} FillAtBestIsAdverse(s: Slot, quantity: real, q: Quote, cfg: Config)
    requires quantity > 0.0 && cfg.impactBps >= 0.0
    ensures AllAdverse(FillAtBest(s, quantity, q, cfg).fills, s.order.side, q)
  {
    var side := s.order.side;
    var top, touch := q.OppositeSize(side), q.Opposite(side);
    if touch > 0.0 && top > 0.0 {
      SlippedIsAdverse(touch, cfg.impactBps, quantity / top);
    }
  }

  /** No fill flatters the strategy: an open order fills only after its release and only while it is a
      market order or its limit reaches the touch, and never at a better price than the touch. */
  lemma {:induction false} FillsAreFair(s: Slot, now: int, q: Quote, cfg: Config)
    requires s.active && Live(s) && cfg.impactBps >= 0.0
    ensures var a := Check(s, now, q, cfg);
            && (a.fills != [] ==> now >= s.release && Reaches(s.order, q))
            && AllAdverse(a.fills, s.order.side, q)
  {
    FillAtBestIsAdverse(s, s.order.quantity - s.filled, q, cfg);
    PassiveIsAdverse(s, Offered(s, q, cfg), q, cfg);
    CheckEnds((a: Action) => (a.fills != [] ==> now >= s.release && Reaches(s.order, q)) && AllAdverse(a.fills, s.order.side, q),
              s, now, q, cfg);
  }

  /** A check does nothing, ends the order, or, released and fillable, fills it at best or behind its queue. */
  lemma {:induction false} CheckEnds(P: Action -> bool, s: Slot, now: int, q: Quote, cfg: Config)
    requires P(Action(s, [], [])) && P(Cancel(s)) && P(Reject(s)) && P(Action(s.(active := false), [], []))
    requires now >= s.release && Fillable(s, q) ==>
               P(FillAtBest(s, s.order.quantity - s.filled, q, cfg)) && P(FillShare(s, Offered(s, q, cfg), q, cfg))
    ensures P(Check(s, now, q, cfg))
  {
  }

  lemma {:induction false} PassiveIsAdverse(s: Slot, offered: real, q: Quote, cfg: Config)
    requires s.active && Live(s) && cfg.impactBps >= 0.0
    ensures AllAdverse(FillShare(s, offered, q, cfg).fills, s.order.side, q)
  {
    var remaining := s.order.quantity - s.filled;
    var consumed := if s.queueAhead <= 0.0 then 0.0 else if offered > s.queueAhead then s.queueAhead else offered;
    var available := offered - consumed;
    if available > 0.0 {
      FillAtBestIsAdverse(s.(queueAhead := s.queueAhead - consumed),
                          if available > remaining then remaining else available, q, cfg);
    }
  }

  // ---------------------------------------------------------------- limits

  predicate WithinLimit(order: Order, price: real) {
    if order.side.Bid? then price <= order.price else price >= order.price
  }

  /** How far a fill of this quantity slips from the touch. */
  function Slippage(side: Side, quantity: real, q: Quote, cfg: Config): real {
    var top := TopSize(side, q);
    if top <= 0.0 then 0.0 else Touch(side, q) * (cfg.impactBps * (quantity / top) / 10000.0)
  }

  /** The slippage is no more than the distance from the touch to the limit. */
  predicate SlipFits(order: Order, quantity: real, q: Quote, cfg: Config) {
    var room := if order.side == Bid then order.price - Touch(Bid, q) else Touch(Ask, q) - order.price;
    Slippage(order.side, quantity, q, cfg) <= room
  }

  /** Every fill is of this quantity, and is within the limit exactly if the slippage fits. */
  ghost predicate LimitExact(fills: seq<Fill>, order: Order, quantity: real, q: Quote, cfg: Config) {
    forall i :: 0 <= i < |fills| ==>
      fills[i].quantity == quantity
      && (WithinLimit(order, fills[i].price) <==> SlipFits(order, quantity, q, cfg))
  }

  lemma {:induction false} Spread(price: real, x: real)
    ensures price * (1.0 + x) == price + price * x && price * (1.0 + -x) == price - price * x
  {
  }

  lemma {:induction false} FillAtBestLimit(s: Slot, quantity: real, q: Quote, cfg: Config)
    ensures LimitExact(FillAtBest(s, quantity, q, cfg).fills, s.order, quantity, q, cfg)
  {
    var side := s.order.side;
    var top := q.OppositeSize(side);
    if top > 0.0 {
      Spread(q.Opposite(side), cfg.impactBps * (quantity / top) / 10000.0);
    }
  }

  /** A new order fills, if at all, whole, and within its limit exactly if the slippage of its whole quantity
      fits between the touch and the limit. */
  lemma {:induction false} OpenLimit(ticket: nat, order: Order, now: int, q: Quote, cfg: Config)
    ensures LimitExact(Open(ticket, order, now, q, cfg).fills, order, order.quantity, q, cfg)
  {
    FillAtBestLimit(Placed(ticket, order, now, q, cfg), order.quantity, q, cfg);
  }

  /** What a check would fill: the rest of a market order, and of a limit order what the queue leaves. */
  function CheckQuantity(s: Slot, q: Quote, cfg: Config): real {
    var remaining := s.order.quantity - s.filled;
    if s.order.kind.Market? then remaining else ShareQuantity(s, Offered(s, q, cfg))
  }

  function ShareQuantity(s: Slot, offered: real): real {
    var remaining := s.order.quantity - s.filled;
    var consumed := if s.queueAhead <= 0.0 then 0.0 else if offered > s.queueAhead then s.queueAhead else offered;
    if offered - consumed > remaining then remaining else offered - consumed
  }

  lemma {:induction false} ShareLimit(s: Slot, offered: real, q: Quote, cfg: Config)
    ensures LimitExact(FillShare(s, offered, q, cfg).fills, s.order, ShareQuantity(s, offered), q, cfg)
  {
    var consumed := if s.queueAhead <= 0.0 then 0.0 else if offered > s.queueAhead then s.queueAhead else offered;
    FillAtBestLimit(s.(queueAhead := s.queueAhead - consumed), ShareQuantity(s, offered), q, cfg);
  }

  /** The limit is tested before slippage is added. So a check fills an order within its limit exactly if the
      slippage of the quantity it fills fits between the touch and the limit, for buys and sells alike. */
  lemma {:induction false} CheckLimit(s: Slot, now: int, q: Quote, cfg: Config)
    ensures LimitExact(Check(s, now, q, cfg).fills, s.order, CheckQuantity(s, q, cfg), q, cfg)
  {
    FillAtBestLimit(s, s.order.quantity - s.filled, q, cfg);
    ShareLimit(s, Offered(s, q, cfg), q, cfg);
  }

  /** The limit is tested before slippage is added: a buy limit exactly at the best ask fills above its
      limit whenever there is any price impact. */
  lemma {:induction false} LimitAtTouchSlips(s: Slot, quantity: real, q: Quote, cfg: Config)
    requires quantity > 0.0 && cfg.impactBps > 0.0 && TopSize(Bid, q) > 0.0
    requires s.order.side.Bid? && s.order.price == Touch(Bid, q) > 0.0
    ensures var a := FillAtBest(s, quantity, q, cfg);
            Reaches(s.order, q) && Fillable(s, q) && |a.fills| == 1 && a.fills[0].price > s.order.price
  {
    SlippedIsAdverse(Touch(Bid, q), cfg.impactBps, quantity / TopSize(Bid, q));
  }

  // ---------------------------------------------------------------- positive prices

  /** A fill has a positive price exactly if, on a sell, the impact of its share of the top level stays below
      the whole price; on a buy, if a negative impact does. */
  lemma {:induction false} SlippedPositive(price: real, quantity: real, side: Side, q: Quote, cfg: Config)
    requires price > 0.0 && TopSize(side, q) > 0.0
    ensures Slipped(price, quantity, side, q, cfg) > 0.0 <==>
            if side.Bid? then cfg.impactBps * quantity > -10000.0 * TopSize(side, q)
            else cfg.impactBps * quantity < 10000.0 * TopSize(side, q)
  {
    var top := TopSize(side, q);
    var x := cfg.impactBps * (quantity / top);
    ShareOfTop(cfg.impactBps, quantity, top);
    PositiveFactor(price, 1.0 + if side.Bid? then x / 10000.0 else -(x / 10000.0));
  }

  lemma {:induction false} ShareOfTop(impact: real, quantity: real, top: real)
    requires top > 0.0
    ensures impact * (quantity / top) < 10000.0 <==> impact * quantity < 10000.0 * top
    ensures impact * (quantity / top) > -10000.0 <==> impact * quantity > -10000.0 * top
  {
    var x := impact * (quantity / top);
    assert quantity / top * top == quantity;
    Reorder(impact, quantity / top, top);
    ScaleBy(x, 10000.0, top);
    ScaleBy(-10000.0, x, top);
  }

  lemma {:induction false} Reorder(a: real, b: real, c: real)
    ensures (a * b) * c == a * (b * c)
  {
  }

  lemma {:induction false} ScaleBy(a: real, b: real, c: real)
    requires c > 0.0
    ensures a < b <==> a * c < b * c
  {
    if a < b { assert (b - a) * c > 0.0; } else { assert (a - b) * c >= 0.0; }
  }

  lemma {:induction false} PositiveFactor(a: real, b: real)
    requires a > 0.0
    ensures a * b > 0.0 <==> b > 0.0
  {
    if b <= 0.0 { assert a * -b >= 0.0; }
  }

  /** Orders no larger than `largest`, and quotes whose best bid is no thinner than `thinnest`. */
  predicate Sized(op: Op, largest: real, thinnest: real) {
    PositiveOrder(op) &&
    match op
    case SubmitOp(order, _, q) => order.quantity <= largest && Thick(q, thinnest)
    case ReplaceOp(_, order, _, q) => order.quantity <= largest && Thick(q, thinnest)
    case CheckOp(_, q) => Thick(q, thinnest)
    case _ => true
  }

  predicate Thick(q: Quote, thinnest: real) {
    q.bids != [] ==> q.bids[0].size >= thinnest
  }

  ghost predicate AllSized(ops: seq<Op>, largest: real, thinnest: real) {
    forall i :: 0 <= i < |ops| ==> Sized(ops[i], largest, thinnest)
  }

  /** The largest order moves the thinnest bid by less than its whole price. */
  predicate Shallow(cfg: Config, largest: real, thinnest: real) {
    cfg.impactBps * largest < 10000.0 * thinnest
  }

  lemma {:induction false} SmallerIsShallow(impact: real, quantity: real, largest: real, top: real, thinnest: real)
    requires impact >= 0.0 && quantity <= largest && top >= thinnest && impact * largest < 10000.0 * thinnest
    ensures impact * quantity < 10000.0 * top
  {
    assert impact * (largest - quantity) >= 0.0;
  }

  lemma {:induction false} FillAtBestPositive(s: Slot, quantity: real, q: Quote, cfg: Config, largest: real, thinnest: real)
    requires cfg.impactBps >= 0.0 && Shallow(cfg, largest, thinnest) && thinnest > 0.0 && Thick(q, thinnest)
    requires quantity <= largest
    ensures PositivePrices(FillAtBest(s, quantity, q, cfg).fills)
  {
    var side := s.order.side;
    if quantity > 0.0 && q.Opposite(side) > 0.0 && q.OppositeSize(side) > 0.0 {
      SlippedPositive(q.Opposite(side), quantity, side, q, cfg);
      if side.Ask? {
        SmallerIsShallow(cfg.impactBps, quantity, largest, q.OppositeSize(side), thinnest);
      } else {
        assert cfg.impactBps * quantity >= 0.0;
      }
    }
  }

  lemma {:induction false} SharePositive(s: Slot, offered: real, q: Quote, cfg: Config, largest: real, thinnest: real)
    requires cfg.impactBps >= 0.0 && Shallow(cfg, largest, thinnest) && thinnest > 0.0 && Thick(q, thinnest)
    requires s.order.quantity - s.filled <= largest
    ensures PositivePrices(FillShare(s, offered, q, cfg).fills)
  {
    var consumed := if s.queueAhead <= 0.0 then 0.0 else if offered > s.queueAhead then s.queueAhead else offered;
    FillAtBestPositive(s.(queueAhead := s.queueAhead - consumed), ShareQuantity(s, offered), q, cfg, largest, thinnest);
  }

  lemma {:induction false} CheckPositive(s: Slot, now: int, q: Quote, cfg: Config, largest: real, thinnest: real)
    requires cfg.impactBps >= 0.0 && Shallow(cfg, largest, thinnest) && thinnest > 0.0 && Thick(q, thinnest)
    requires s.order.quantity - s.filled <= largest
    ensures PositivePrices(Check(s, now, q, cfg).fills)
  {
    FillAtBestPositive(s, s.order.quantity - s.filled, q, cfg, largest, thinnest);
    SharePositive(s, Offered(s, q, cfg), q, cfg, largest, thinnest);
  }

  /** Every open order is small enough, and so far every fill had a positive price. */
  ghost predicate Priced(p: Pool, largest: real) {
    && (forall i :: 0 <= i < |p.slots| && p.slots[i].active ==> p.slots[i].order.quantity <= largest)
    && PositivePrices(p.fills)
  }

  lemma {:induction false} ActKeepsPriced(p: Pool, i: nat, a: Action, largest: real)
    requires Priced(p, largest) && i < |p.slots| && PositivePrices(a.fills)
    requires a.slot.active ==> a.slot.order.quantity <= largest
    ensures Priced(Act(p, i, a), largest)
  {
  }

  lemma {:induction false} SubmitKeepsPriced(p: Pool, order: Order, now: int, q: Quote, cfg: Config, largest: real,
                                             thinnest: real)
    requires Priced(p, largest) && order.quantity <= largest && Thick(q, thinnest)
    requires cfg.impactBps >= 0.0 && Shallow(cfg, largest, thinnest) && thinnest > 0.0
    ensures Priced(Submit(p, order, now, q, cfg).0, largest)
  {
    var i := FirstFree(p.slots);
    if i < |p.slots| {
      FillAtBestPositive(Placed(|p.orders|, order, now, q, cfg), order.quantity, q, cfg, largest, thinnest);
      ActKeepsPriced(p, i, Open(|p.orders|, order, now, q, cfg), largest);
    }
  }

  lemma {:induction false} CancelKeepsPriced(p: Pool, id: nat, largest: real)
    requires Priced(p, largest)
    ensures Priced(CancelOrder(p, id).0, largest)
  {
    var i := FindActive(p.slots, id);
    if i < |p.slots| {
      ActKeepsPriced(p, i, Cancel(p.slots[i]), largest);
    }
  }

  lemma {:induction false} CancelFromKeepsPriced(p: Pool, i: nat, symbol: string, largest: real)
    requires Priced(p, largest) && i <= |p.slots|
    ensures Priced(CancelFrom(p, i, symbol), largest)
    decreases |p.slots| - i
  {
    if i < |p.slots| {
      var a := CancelIfNamed(p.slots[i], symbol);
      ActKeepsPriced(p, i, a, largest);
      CancelFromKeepsPriced(Act(p, i, a), i + 1, symbol, largest);
    }
  }

  lemma {:induction false} CheckFromKeepsPriced(p: Pool, i: nat, now: int, q: Quote, cfg: Config, largest: real,
                                                thinnest: real)
    requires Inv(p) && Priced(p, largest) && i <= |p.slots| && Thick(q, thinnest)
    requires cfg.impactBps >= 0.0 && Shallow(cfg, largest, thinnest) && thinnest > 0.0
    ensures Priced(CheckFrom(p, i, now, q, cfg), largest)
    decreases |p.slots| - i
  {
    if i < |p.slots| {
      CheckOneKeepsPriced(p, i, now, q, cfg, largest, thinnest);
      CheckFromKeepsPriced(Act(p, i, Check(p.slots[i], now, q, cfg)), i + 1, now, q, cfg, largest, thinnest);
    }
  }

  lemma {:induction false} CheckOneKeepsPriced(p: Pool, i: nat, now: int, q: Quote, cfg: Config, largest: real,
                                               thinnest: real)
    requires Inv(p) && Priced(p, largest) && i < |p.slots| && Thick(q, thinnest)
    requires cfg.impactBps >= 0.0 && Shallow(cfg, largest, thinnest) && thinnest > 0.0
    ensures Inv(Act(p, i, Check(p.slots[i], now, q, cfg))) && Priced(Act(p, i, Check(p.slots[i], now, q, cfg)), largest)
  {
    var a := Check(p.slots[i], now, q, cfg);
    if p.slots[i].active {
      CheckIsGood(p.slots[i], now, q, cfg);
      ActKeepsInv(p, i, a);
      CheckPositive(p.slots[i], now, q, cfg, largest, thinnest);
      ActKeepsPriced(p, i, a, largest);
    } else {
      IdleAction(p, i);
    }
  }

  lemma {:induction false} StepKeepsPriced(p: Pool, op: Op, cfg: Config, largest: real, thinnest: real)
    requires Inv(p) && Priced(p, largest) && Sized(op, largest, thinnest)
    requires cfg.impactBps >= 0.0 && Shallow(cfg, largest, thinnest) && thinnest > 0.0
    ensures Priced(Step(p, op, cfg), largest)
  {
    match op
    case SubmitOp(order, now, q) => SubmitKeepsPriced(p, order, now, q, cfg, largest, thinnest);
    case CancelOp(id) => CancelKeepsPriced(p, id, largest);
    case ReplaceOp(id, order, now, q) =>
      CancelKeepsPriced(p, id, largest);
      SubmitKeepsPriced(CancelOrder(p, id).0, order, now, q, cfg, largest, thinnest);
    case CancelAllOp(symbol) => CancelFromKeepsPriced(p, 0, symbol, largest);
    case CheckOp(now, q) => CheckFromKeepsPriced(p, 0, now, q, cfg, largest, thinnest);
  }

  lemma {:induction false} RunIsPriced(ops: seq<Op>, cfg: Config, largest: real, thinnest: real)
    requires AllSized(ops, largest, thinnest)
    requires cfg.impactBps >= 0.0 && Shallow(cfg, largest, thinnest) && thinnest > 0.0
    ensures Priced(Run(ops, cfg), largest)
    decreases |ops|
  {
    if ops != [] {
      var init := ops[..|ops| - 1];
      RunIsPriced(init, cfg, largest, thinnest);
      OrderLifecycle(init, cfg);
      StepKeepsPriced(Run(init, cfg), ops[|ops| - 1], cfg, largest, thinnest);
    }
  }

  // ---------------------------------------------------------------- mark to market over a run

  /** What the connector reports is cash plus inventory at mid, up to a millionth of the prices snapped at. */
  ghost predicate MarkedToMarket(p: Pool, mid: real) {
    WithinSnaps(TotalPnl(p.ledger, mid) - MarkedCash(p.ledger, mid), SnapPrices(p.fills))
  }

  /** Profit over a whole run of the pool, whatever is submitted, cancelled, replaced and checked: while the
      largest order cannot move the thinnest bid by its whole price, profit is mark to market. */
  lemma {:induction false} PoolIsMarkToMarket(ops: seq<Op>, cfg: Config, mid: real, largest: real, thinnest: real)
    requires AllSized(ops, largest, thinnest) && mid > 0.0
    requires cfg.impactBps >= 0.0 && Shallow(cfg, largest, thinnest) && thinnest > 0.0
    ensures MarkedToMarket(Run(ops, cfg), mid)
  {
    RunIsPriced(ops, cfg, largest, thinnest);
    OrderLifecycle(ops, cfg);
    AccountIsMarkToMarket(Account(Run(ops, cfg).fills, mid));
  }

  /** A market sell of the largest size into one thin bid, then a check at its release in case it had to wait. */
  function BigSell(cfg: Config, largest: real, thinnest: real): seq<Op> {
    [SubmitOp(SellOrder(largest), 0, ThinBid(thinnest)), CheckOp(Latency(cfg, 0), ThinBid(thinnest))]
  }

  function SellOrder(quantity: real): Order {
    Order(0, "", Binance, Ask, Market, Gtc, 0.0, quantity)
  }

  function ThinBid(size: real): Quote {
    Quote([Level(100.0, size)], [])
  }

  lemma {:induction false} CheckFromIdle(p: Pool, i: nat, now: int, q: Quote, cfg: Config)
    requires i <= |p.slots| && forall j :: i <= j < |p.slots| ==> !p.slots[j].active
    ensures CheckFrom(p, i, now, q, cfg) == p
    decreases |p.slots| - i
  {
    if i < |p.slots| {
      IdleAction(p, i);
      CheckFromIdle(p, i + 1, now, q, cfg);
    }
  }

  /** A pool whose one fill so far is the sell of the whole quantity at its slipped price. */
  ghost predicate SoldOnce(p: Pool, quantity: real, q: Quote, cfg: Config) {
    && |p.fills| == 1 && p.fills[0].side == Ask && p.fills[0].quantity == quantity
    && p.fills[0].price == Slipped(100.0, quantity, Ask, q, cfg) && p.ledger == ApplyFills(FLAT, p.fills)
  }

  lemma {:induction false} SellFills(s: Slot, quantity: real, size: real, cfg: Config)
    requires s.order == SellOrder(quantity) && s.filled == 0.0 && quantity > 0.0
    ensures var a := FillAtBest(s, quantity, ThinBid(size), cfg);
            && !a.slot.active
            && a.fills == [Fill(Ask, quantity, Slipped(100.0, quantity, Ask, ThinBid(size), cfg), FeeBps(cfg, s))]
  {
  }

  lemma {:induction false} PostOne(f: Fill)
    ensures Post(FLAT, [f]) == ApplyFills(FLAT, [f])
  {
    assert [f][..0] == [];
  }

  lemma {:induction false} BigSellFills(cfg: Config, largest: real, thinnest: real)
    requires largest > 0.0
    ensures SoldOnce(Run(BigSell(cfg, largest, thinnest), cfg), largest, ThinBid(thinnest), cfg)
  {
    var q, order := ThinBid(thinnest), SellOrder(largest);
    var ops := BigSell(cfg, largest, thinnest);
    assert ops[..1] == [ops[0]] && ops[..1][..0] == [];
    var empty := EmptyPool();
    var s := Placed(0, order, 0, q, cfg);
    var a := Open(0, order, 0, q, cfg);
    var first := Act(empty, 0, a).(orders := [] + [order]);
    assert Submit(empty, order, 0, q, cfg).0 == first;
    assert Run(ops[..1], cfg) == first by { assert Run([], cfg) == empty; }
    SellFills(s, largest, thinnest, cfg);
    SellFills(s.(maker := true), largest, thinnest, cfg);
    PostOne(Fill(Ask, largest, Slipped(100.0, largest, Ask, q, cfg), FeeBps(cfg, s)));
    PostOne(Fill(Ask, largest, Slipped(100.0, largest, Ask, q, cfg), FeeBps(cfg, s.(maker := true))));
    var now := Latency(cfg, 0);
    var second := Act(first, 0, Check(first.slots[0], now, q, cfg));
    CheckFromIdle(second, 1, now, q, cfg);
    assert CheckFrom(first, 0, now, q, cfg) == CheckFrom(second, 1, now, q, cfg);
    assert Run(ops, cfg) == second;
    if !first.slots[0].active {
      IdleAction(first, 0);
    } else {
      var fills := FillAtBest(s.(maker := true), largest, q, cfg).fills;
      assert [] + fills == fills;
    }
  }

  /** One sell at a price of zero or less leaves an entry price the accounting takes for none: the position
      is not valued at all, and nothing was snapped that could make up for it. */
  lemma {:induction false} SoldAtNothing(p: Pool, f: Fill, mid: real)
    requires p.fills == [f] && p.ledger == ApplyFills(FLAT, [f]) && f.side == Ask && f.quantity > 0.0
    requires f.price <= 0.0 && mid > 0.0
    ensures !MarkedToMarket(p, mid)
  {
    assert [f][..0] == [];
    assert p.ledger == ApplyFill(FLAT, f);
    assert f.price * f.quantity / f.quantity == f.price;
    assert p.ledger.avgEntry <= 0.0 && p.ledger.position == -f.quantity;
    assert f.price * f.quantity <= 0.0 && f.quantity * mid > 0.0;
    assert SnapPrices([]) == 0.0;
    assert SnapPrices([f]) == 0.0;
  }

  lemma {:induction false} SmallerOrNotShallow(cfg: Config, largest: real, thinnest: real)
    requires thinnest > 0.0
    ensures Slipped(100.0, largest, Ask, ThinBid(thinnest), cfg) <= 0.0 <==> !Shallow(cfg, largest, thinnest)
  {
    SlippedPositive(100.0, largest, Ask, ThinBid(thinnest), cfg);
  }

  lemma {:induction false} AllSizedBigSell(cfg: Config, largest: real, thinnest: real)
    requires largest > 0.0
    ensures AllSized(BigSell(cfg, largest, thinnest), largest, thinnest)
  {
  }

  /** Main result, exactly: with orders up to `largest` and bids at least `thinnest`, profit is mark to market
      over every run if and only if the largest order moves the thinnest bid by less than its price. */
  lemma {:induction false} MarkToMarketExactly(cfg: Config, largest: real, thinnest: real)
    requires cfg.impactBps >= 0.0 && largest > 0.0 && thinnest > 0.0
    ensures (forall ops, mid :: AllSized(ops, largest, thinnest) && mid > 0.0 ==> MarkedToMarket(Run(ops, cfg), mid))
            <==> Shallow(cfg, largest, thinnest)
  {
    if Shallow(cfg, largest, thinnest) {
      forall ops, mid | AllSized(ops, largest, thinnest) && mid > 0.0
        ensures MarkedToMarket(Run(ops, cfg), mid)
      {
        PoolIsMarkToMarket(ops, cfg, mid, largest, thinnest);
      }
    } else {
      var ops := BigSell(cfg, largest, thinnest);
      var p := Run(ops, cfg);
      BigSellFills(cfg, largest, thinnest);
      SmallerOrNotShallow(cfg, largest, thinnest);
      assert p.fills == [p.fills[0]];
      SoldAtNothing(p, p.fills[0], 1.0);
      AllSizedBigSell(cfg, largest, thinnest);
      assert 1.0 > 0.0 && !MarkedToMarket(Run(ops, cfg), 1.0);
    }
  }

  /** For one: an impact of 20000 basis points and a sell of one unit into a bid of one unit at 100 fill
      at minus 100. */
  lemma {:induction false} SellBelowZero(cfg: Config)
    requires cfg.impactBps == 20000.0
    ensures SoldOnce(Run(BigSell(cfg, 1.0, 1.0), cfg), 1.0, ThinBid(1.0), cfg)
    ensures Run(BigSell(cfg, 1.0, 1.0), cfg).fills[0].price == -100.0
  {
    BigSellFills(cfg, 1.0, 1.0);
  }
}
