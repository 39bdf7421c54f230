/** How the shadow pool serves an order: when it is released and how long its queue is, exactly when a check fills
    it and when it ends it unfilled, which fee it pays, and which orders a cancel ends. */
module ShadowService {
  import opened Common
  import opened ShadowLedger
  import opened ShadowPool
  import opened ShadowPrices

  // ---------------------------------------------------------------- a new order

  /** The latency is the base one, moved by at most the jitter. */
  lemma {:induction false} ReleaseIsNear(ticket: nat, order: Order, now: int, q: Quote, cfg: Config)
    ensures var wait := Placed(ticket, order, now, q, cfg).release - now;
            if cfg.latencyJitter <= 0 then wait == cfg.baseLatency
            else cfg.baseLatency - cfg.latencyJitter <= wait <= cfg.baseLatency + cfg.latencyJitter
  {
  }

  /** The queue ahead is six tenths of what rests at the order's own price, within the first eight levels of its
      own side; no queue if nothing rests there. */
  lemma {:induction false} QueueIsShare(ticket: nat, order: Order, now: int, q: Quote, cfg: Config)
    ensures var own := if order.side == Bid then q.bids else q.asks;
            var queue := Placed(ticket, order, now, q, cfg).queueAhead;
            if exists i :: 0 <= i < |own| && i < 8 && own[i].price == order.price then
              exists i :: 0 <= i < |own| && i < 8 && own[i].price == order.price && queue == own[i].size * 0.6
                && forall j :: 0 <= j < i ==> own[j].price != order.price
            else queue == 0.0
  {
    var own := if order.side == Bid then q.bids else q.asks;
    QueueAt(order, Eight(own));
  }

  lemma {:induction false} QueueAt(order: Order, levels: seq<Level>)
    ensures if exists i :: 0 <= i < |levels| && levels[i].price == order.price then
              exists i :: 0 <= i < |levels| && levels[i].price == order.price
                && QueueAhead(order, levels) == levels[i].size * 0.6
                && forall j :: 0 <= j < i ==> levels[j].price != order.price
            else QueueAhead(order, levels) == 0.0
    decreases |levels|
  {
    if levels != [] && levels[0].price != order.price {
      var rest := levels[1..];
      QueueAt(order, rest);
      if i :| 0 <= i < |levels| && levels[i].price == order.price {
        assert rest[i - 1].price == order.price;
        var k :| 0 <= k < |rest| && rest[k].price == order.price && QueueAhead(order, rest) == rest[k].size * 0.6
                 && forall j :: 0 <= j < k ==> rest[j].price != order.price;
        assert levels[k + 1].price == order.price;
        forall j | 0 <= j < k + 1 ensures levels[j].price != order.price {
          if j > 0 { assert rest[j - 1].price != order.price; }
        }
      }
    }
  }

  /** A new order is filled at once exactly if its latency is over, it reaches the touch and there is a price;
      otherwise it rests, or is refused for want of a price. */
  lemma {:induction false} OpenExactly(ticket: nat, order: Order, now: int, q: Quote, cfg: Config)
    requires order.quantity > 0.0
    ensures var a := Open(ticket, order, now, q, cfg);
            var due := Latency(cfg, order.id) <= 0 && Reaches(order, q);
            && a.slot.ticket == ticket && a.slot.order == order
            && (due && Touch(order.side, q) > 0.0 ==>
                  |a.fills| == 1 && a.fills[0].side == order.side && a.fills[0].quantity == order.quantity
                  && !a.slot.active && |a.updates| == 1 && a.updates[0].state == Filled)
            && (due && Touch(order.side, q) <= 0.0 ==>
                  a.fills == [] && !a.slot.active && |a.updates| == 1 && a.updates[0].state == Rejected)
            && (!due ==> a.fills == [] && a.updates == [] && a.slot.active && a.slot.filled == 0.0)
  {
  }

  // ---------------------------------------------------------------- a check

  /** What the queue leaves of the offered share of the top level. */
  function PastQueue(s: Slot, q: Quote, cfg: Config): real {
    TopSize(s.order.side, q) * cfg.matchFraction - MaxReal(s.queueAhead, 0.0)
  }

  /** What is left of the order, and of a limit order no more than what gets past the queue. */
  function Due(s: Slot, q: Quote, cfg: Config): real {
    var left := s.order.quantity - s.filled;
    if s.order.kind == Market then left else MinReal(left, PastQueue(s, q, cfg))
  }

  lemma {:induction false} ShareFills(s: Slot, offered: real, q: Quote, cfg: Config)
    requires Live(s) && offered >= 0.0 && Touch(s.order.side, q) > 0.0
    ensures var a := FillShare(s, offered, q, cfg);
            var past := offered - MaxReal(s.queueAhead, 0.0);
            if past > 0.0 then
              |a.fills| == 1 && a.fills[0].side == s.order.side
              && a.fills[0].quantity == MinReal(s.order.quantity - s.filled, past)
            else a.fills == []
  {
  }

  lemma {:induction false} OfferedIs(s: Slot, q: Quote, cfg: Config)
    requires cfg.matchFraction >= 0.0 && TopSize(s.order.side, q) >= 0.0
    ensures Offered(s, q, cfg) == TopSize(s.order.side, q) * cfg.matchFraction >= 0.0
  {
  }

  /** A check fills the order exactly if it is released, reaches a touch with a price, and, being a limit
      order, gets past its queue; and then by all that is due to it. */
  lemma {:induction false} CheckFillsExactly(s: Slot, now: int, q: Quote, cfg: Config)
    requires s.active && Live(s) && cfg.matchFraction >= 0.0
    ensures var a := Check(s, now, q, cfg);
            var fills := && s.release <= now && Reaches(s.order, q) && Touch(s.order.side, q) > 0.0
                         && (s.order.kind != Market ==> TopSize(s.order.side, q) > 0.0 && PastQueue(s, q, cfg) > 0.0);
            if fills then |a.fills| == 1 && a.fills[0].side == s.order.side && a.fills[0].quantity == Due(s, q, cfg)
            else a.fills == []
  {
    if TopSize(s.order.side, q) > 0.0 && Touch(s.order.side, q) > 0.0 {
      OfferedIs(s, q, cfg);
      ShareFills(s, Offered(s, q, cfg), q, cfg);
    }
  }

  /** And it ends the order unfilled exactly in three cases: a released market order without a price, or a limit
      order that reaches a touch without size, is rejected; an immediate-or-cancel limit that does not reach the
      touch is cancelled. */
  lemma {:induction false} CheckEndsUnfilled(s: Slot, now: int, q: Quote, cfg: Config)
    requires s.active && Live(s) && cfg.matchFraction >= 0.0 && Check(s, now, q, cfg).fills == []
    ensures var a := Check(s, now, q, cfg);
            var rejected := && s.release <= now && Reaches(s.order, q)
                            && (if s.order.kind == Market then Touch(s.order.side, q) <= 0.0
                                else TopSize(s.order.side, q) <= 0.0);
            var canceled := s.release <= now && s.order.kind != Market && s.order.tif == Ioc && !Reaches(s.order, q);
            && (a.slot.active <==> !rejected && !canceled)
            && (rejected ==> |a.updates| == 1 && a.updates[0].state == Rejected)
            && (canceled ==> |a.updates| == 1 && a.updates[0].state == Canceled)
            && (a.slot.active ==> a.updates == [] && a.slot.filled == s.filled)
  {
  }

  // ---------------------------------------------------------------- fees

  /** Whose fees an exchange's orders pay: an unknown one's, Kraken's. */
  function Charged(e: Exchange): Exchange {
    if e == Unknown then Kraken else e
  }

  /** Every open order is a resting one. */
  ghost predicate AllResting(p: Pool) {
    forall i :: 0 <= i < |p.slots| && p.slots[i].active ==> p.slots[i].maker
  }

  /** The fill is for an order on this side and pays its venue's maker fee. */
  ghost predicate PaysMaker(cfg: Config, order: Order, f: Fill) {
    f.side == order.side && f.feeBps == cfg.makerBps(Charged(order.exchange))
  }

  ghost predicate PaysTaker(cfg: Config, order: Order, f: Fill) {
    f.side == order.side && f.feeBps == cfg.takerBps(Charged(order.exchange))
  }

  lemma {:induction false} OpenPays(ticket: nat, order: Order, now: int, q: Quote, cfg: Config)
    requires order.quantity > 0.0
    ensures var a := Open(ticket, order, now, q, cfg);
            && (forall i :: 0 <= i < |a.fills| ==> PaysTaker(cfg, order, a.fills[i]))
            && (a.slot.active ==> a.slot.maker)
  {
  }

  lemma {:induction false} CheckPays(s: Slot, now: int, q: Quote, cfg: Config)
    requires s.active && s.maker
    ensures var a := Check(s, now, q, cfg);
            && (forall i :: 0 <= i < |a.fills| ==> PaysMaker(cfg, s.order, a.fills[i]))
            && (a.slot.active ==> a.slot.maker)
  {
  }

  ghost predicate SomePaysMaker(cfg: Config, orders: seq<Order>, f: Fill) {
    exists k :: 0 <= k < |orders| && PaysMaker(cfg, orders[k], f)
  }

  /** From `p` to `t` the pool has sent more fills, each for one of its orders, at the maker's fee. */
  ghost predicate MakerFills(cfg: Config, p: Pool, t: Pool) {
    && |p.fills| <= |t.fills| && t.fills[..|p.fills|] == p.fills && p.orders == t.orders
    && forall i :: |p.fills| <= i < |t.fills| ==> SomePaysMaker(cfg, p.orders, t.fills[i])
  }

  lemma {:induction false} CheckOnePays(p: Pool, i: nat, now: int, q: Quote, cfg: Config)
    requires SlotsOk(p) && AllResting(p) && i < |p.slots|
    ensures var t := Act(p, i, Check(p.slots[i], now, q, cfg)); AllResting(t) && MakerFills(cfg, p, t)
  {
    var s := p.slots[i];
    if s.active {
      CheckPays(s, now, q, cfg);
      assert p.orders[s.ticket] == s.order;
    } else {
      IdleAction(p, i);
    }
  }

  lemma {:induction false} MakerTransitive(cfg: Config, p: Pool, t: Pool, u: Pool)
    requires MakerFills(cfg, p, t) && MakerFills(cfg, t, u)
    ensures MakerFills(cfg, p, u)
  {
    assert u.fills[..|p.fills|] == u.fills[..|t.fills|][..|p.fills|];
    forall i | |p.fills| <= i < |u.fills|
      ensures SomePaysMaker(cfg, p.orders, u.fills[i])
    {
      if i < |t.fills| { assert u.fills[i] == u.fills[..|t.fills|][i] == t.fills[i]; }
    }
  }

  lemma {:induction false} CheckOneKeeps(p: Pool, i: nat, now: int, q: Quote, cfg: Config)
    requires Inv(p) && i < |p.slots|
    ensures Inv(Act(p, i, Check(p.slots[i], now, q, cfg)))
  {
    if p.slots[i].active {
      CheckIsGood(p.slots[i], now, q, cfg);
      ActKeepsInv(p, i, Check(p.slots[i], now, q, cfg));
    } else {
      IdleAction(p, i);
    }
  }

  lemma {:induction false} CheckFromPays(p: Pool, i: nat, now: int, q: Quote, cfg: Config)
    requires Inv(p) && AllResting(p) && i <= |p.slots|
    ensures var t := CheckFrom(p, i, now, q, cfg); AllResting(t) && MakerFills(cfg, p, t)
    decreases |p.slots| - i
  {
    if i < |p.slots| {
      var t := Act(p, i, Check(p.slots[i], now, q, cfg));
      CheckOnePays(p, i, now, q, cfg);
      CheckOneKeeps(p, i, now, q, cfg);
      CheckFromPays(t, i + 1, now, q, cfg);
      MakerTransitive(cfg, p, t, CheckFrom(t, i + 1, now, q, cfg));
    }
  }

  /** From `p` to `t` at most this order has filled, at the taker's fee. */
  ghost predicate TakerFills(cfg: Config, order: Order, p: Pool, t: Pool) {
    |p.fills| <= |t.fills| && t.fills[..|p.fills|] == p.fills
    && forall i :: |p.fills| <= i < |t.fills| ==> PaysTaker(cfg, order, t.fills[i])
  }

  lemma {:induction false} SubmitPays(p: Pool, order: Order, now: int, q: Quote, cfg: Config)
    requires AllResting(p) && order.quantity > 0.0
    ensures var t := Submit(p, order, now, q, cfg).0; AllResting(t) && TakerFills(cfg, order, p, t)
  {
    OpenPays(|p.orders|, order, now, q, cfg);
  }

  lemma {:induction false} CancelPays(p: Pool, id: nat)
    requires AllResting(p)
    ensures AllResting(CancelOrder(p, id).0) && CancelOrder(p, id).0.fills == p.fills
  {
  }

  lemma {:induction false} CancelFromPays(p: Pool, i: nat, symbol: string)
    requires AllResting(p) && i <= |p.slots|
    ensures AllResting(CancelFrom(p, i, symbol)) && CancelFrom(p, i, symbol).fills == p.fills
    decreases |p.slots| - i
  {
    if i < |p.slots| { CancelFromPays(Act(p, i, CancelIfNamed(p.slots[i], symbol)), i + 1, symbol); }
  }

  /** What an operation fills, and at whose fee. */
  ghost predicate FeesOf(cfg: Config, p: Pool, op: Op, t: Pool) {
    match op
    case SubmitOp(order, _, _) => TakerFills(cfg, order, p, t)
    case ReplaceOp(_, order, _, _) => TakerFills(cfg, order, p, t)
    case CheckOp(_, _) => MakerFills(cfg, p, t)
    case _ => t.fills == p.fills
  }

  lemma {:induction false} StepPays(p: Pool, op: Op, cfg: Config)
    requires Inv(p) && AllResting(p) && PositiveOrder(op)
    ensures AllResting(Step(p, op, cfg)) && FeesOf(cfg, p, op, Step(p, op, cfg))
  {
    match op
    case SubmitOp(order, now, q) => SubmitPays(p, order, now, q, cfg);
    case CancelOp(id) => CancelPays(p, id);
    case ReplaceOp(id, order, now, q) =>
      CancelPays(p, id);
      SubmitPays(CancelOrder(p, id).0, order, now, q, cfg);
    case CancelAllOp(symbol) => CancelFromPays(p, 0, symbol);
    case CheckOp(now, q) => CheckFromPays(p, 0, now, q, cfg);
  }

  lemma {:induction false} RunRests(ops: seq<Op>, cfg: Config)
    requires forall i :: 0 <= i < |ops| ==> PositiveOrder(ops[i])
    ensures AllResting(Run(ops, cfg))
    decreases |ops|
  {
    if ops != [] {
      var init := ops[..|ops| - 1];
      RunRests(init, cfg);
      OrderLifecycle(init, cfg);
      StepPays(Run(init, cfg), ops[|ops| - 1], cfg);
    }
  }

  /** Main result on fees: after any run, an order filled as it is submitted pays its venue's taker fee, and
      whatever a check fills, resting orders all, pays the maker fee of its own order's venue. */
  lemma {:induction false} FeesByLiquidity(ops: seq<Op>, op: Op, cfg: Config)
    requires PositiveOrder(op) && forall i :: 0 <= i < |ops| ==> PositiveOrder(ops[i])
    ensures FeesOf(cfg, Run(ops, cfg), op, Run(ops + [op], cfg))
  {
    RunRests(ops, cfg);
    OrderLifecycle(ops, cfg);
    StepPays(Run(ops, cfg), op, cfg);
    assert (ops + [op])[..|ops|] == ops;
  }

  // ---------------------------------------------------------------- what a cancel ends

  /** A cancel by symbol closes exactly the open orders of that symbol, as far as its first fifteen characters
      tell, and touches no other. */
  lemma {:induction false} CancelAllExactly(p: Pool, symbol: string, cfg: Config)
    ensures var t := Step(p, CancelAllOp(symbol), cfg);
            && |t.slots| == |p.slots| && t.orders == p.orders
            && forall i :: 0 <= i < |p.slots| ==>
                 t.slots[i] == if Name15(p.slots[i].order.symbol) == Name15(symbol) then p.slots[i].(active := false)
                               else p.slots[i]
  {
    CancelFromExactly(p, 0, symbol);
  }

  lemma {:induction false} CancelFromExactly(p: Pool, i: nat, symbol: string)
    requires i <= |p.slots|
    ensures var t := CancelFrom(p, i, symbol);
            && |t.slots| == |p.slots| && t.orders == p.orders
            && forall j :: 0 <= j < |p.slots| ==>
                 t.slots[j] == if j >= i && Name15(p.slots[j].order.symbol) == Name15(symbol)
                               then p.slots[j].(active := false) else p.slots[j]
    decreases |p.slots| - i
  {
    if i < |p.slots| { CancelFromExactly(Act(p, i, CancelIfNamed(p.slots[i], symbol)), i + 1, symbol); }
  }

  /** A cancel by id closes the first open order of that id, if there is one, and changes nothing else. */
  lemma {:induction false} CancelExactly(p: Pool, id: nat)
    ensures var (t, found) := CancelOrder(p, id);
            && (found <==> exists i :: 0 <= i < |p.slots| && p.slots[i].active && p.slots[i].order.id == id)
            && (!found ==> t == p)
            && (found ==> exists i :: 0 <= i < |p.slots| && p.slots[i].active && p.slots[i].order.id == id
                            && (forall j :: 0 <= j < i ==> !(p.slots[j].active && p.slots[j].order.id == id))
                            && t.slots == p.slots[i := p.slots[i].(active := false)]
                            && t.updates == p.updates + [Update(p.slots[i].ticket, id, Canceled, 0.0, 0.0)]
                            && t.fills == p.fills && t.ledger == p.ledger && t.orders == p.orders)
  {
    FirstActive(p.slots, id);
    assert p.fills + [] == p.fills;
  }

  lemma {:induction false} FirstActive(slots: seq<Slot>, id: nat)
    ensures var i := FindActive(slots, id);
            && (i < |slots| <==> exists k :: 0 <= k < |slots| && slots[k].active && slots[k].order.id == id)
            && forall j :: 0 <= j < i ==> !(slots[j].active && slots[j].order.id == id)
    decreases |slots|
  {
    if slots != [] && !(slots[0].active && slots[0].order.id == id) {
      FirstActive(slots[1..], id);
      var i := FindActive(slots, id);
      forall j | 0 <= j < i ensures !(slots[j].active && slots[j].order.id == id) {
        if j > 0 { assert slots[j] == slots[1..][j - 1]; }
      }
      if k :| 0 <= k < |slots| && slots[k].active && slots[k].order.id == id {
        assert slots[1..][k - 1] == slots[k];
      }
    }
  }

  /** An order is taken exactly while a slot is free. */
  lemma {:induction false} SubmitExactly(p: Pool, order: Order, now: int, q: Quote, cfg: Config)
    ensures var (t, taken) := Submit(p, order, now, q, cfg);
            && (taken <==> exists i :: 0 <= i < |p.slots| && !p.slots[i].active)
            && (!taken ==> t == p)
            && (taken ==> t.orders == p.orders + [order] && |t.slots| == |p.slots|
                          && exists i :: 0 <= i < |p.slots| && !p.slots[i].active && t.slots[i].order == order
                               && t.slots == p.slots[i := t.slots[i]])
  {
    FirstFreeExactly(p.slots);
  }

  /** A replacement of an order that is not open changes nothing; otherwise the order is cancelled and the new one
      always taken, the slot just freed being there for it. */
  lemma {:induction false} ReplaceExactly(p: Pool, id: nat, order: Order, now: int, q: Quote, cfg: Config)
    ensures var t := Step(p, ReplaceOp(id, order, now, q), cfg);
            if exists i :: 0 <= i < |p.slots| && p.slots[i].active && p.slots[i].order.id == id then
              && t.orders == p.orders + [order] && |t.updates| > |p.updates| && t.updates[..|p.updates|] == p.updates
              && t.updates[|p.updates|].id == id && t.updates[|p.updates|].state == Canceled
            else t == p
  {
    CancelExactly(p, id);
    var (canceled, found) := CancelOrder(p, id);
    if found {
      var i :| 0 <= i < |p.slots| && p.slots[i].active && p.slots[i].order.id == id
               && canceled.slots == p.slots[i := p.slots[i].(active := false)];
      assert !canceled.slots[i].active;
      SubmitExactly(canceled, order, now, q, cfg);
      UpdatesStay(canceled, order, now, q, cfg);
    }
  }

  lemma {:induction false} UpdatesStay(p: Pool, order: Order, now: int, q: Quote, cfg: Config)
    ensures var t := Submit(p, order, now, q, cfg).0;
            |t.updates| >= |p.updates| && t.updates[..|p.updates|] == p.updates
  {
  }

  lemma {:induction false} FirstFreeExactly(slots: seq<Slot>)
    ensures FirstFree(slots) < |slots| <==> exists i :: 0 <= i < |slots| && !slots[i].active
    decreases |slots|
  {
    if slots != [] && slots[0].active {
      FirstFreeExactly(slots[1..]);
      if i :| 0 <= i < |slots| && !slots[i].active { assert !slots[1..][i - 1].active; }
      if i :| 0 <= i < |slots[1..]| && !slots[1..][i].active { assert !slots[i + 1].active; }
    }
  }
}
