/** Average-cost accounting of the shadow connector, in exact reals, and plain cash beside it. */
module ShadowLedger {
  import opened Common

  const POSITION_EPSILON: real := 0.000001

  datatype Ledger = Ledger(position: real, avgEntry: real, realized: real, fees: real, cash: real)

  const FLAT := Ledger(0.0, 0.0, 0.0, 0.0, 0.0)

  datatype Fill = Fill(side: Side, quantity: real, price: real, feeBps: real)
  {
    function Signed(): real {
      if side.Bid? then quantity else -quantity
    }

    function Fee(): real {
      feeBps / 10000.0 * price * quantity
    }

    function Cashflow(): real {
      (if side.Ask? then price * quantity else -(price * quantity)) - Fee()
    }
  }

  predicate SameSign(x: real, y: real) {
    (x > 0.0 && y > 0.0) || (x < 0.0 && y < 0.0)
  }

  // ---------------------------------------------------------------- what a fill does

  function Extend(l: Ledger, f: Fill): Ledger {
    var total := Abs(l.position) + f.quantity;
    l.(avgEntry := if total > 0.0 then (l.avgEntry * Abs(l.position) + f.price * f.quantity) / total else 0.0,
       position := l.position + f.Signed())
  }

  function Reduce(l: Ledger, f: Fill): Ledger {
    var closing := MinReal(Abs(l.position), f.quantity);
    var gain := if l.position > 0.0 then (f.price - l.avgEntry) * closing else (l.avgEntry - f.price) * closing;
    var raw := l.position + f.Signed();
    var position := if Abs(raw) <= POSITION_EPSILON then 0.0 else raw;
    var avgEntry :=
      if position == 0.0 then 0.0
      else if (position > 0.0) != (l.position > 0.0) then f.price
      else l.avgEntry;
    l.(realized := l.realized + gain, position := position, avgEntry := avgEntry)
  }

  function MovePosition(l: Ledger, f: Fill): Ledger {
    if l.position == 0.0 || SameSign(l.position, f.Signed()) then Extend(l, f) else Reduce(l, f)
  }

  function ApplyFill(l: Ledger, f: Fill): Ledger {
    MovePosition(l.(cash := l.cash + f.Cashflow(), fees := l.fees + f.Fee()), f)
  }

  function ApplyFills(l: Ledger, fills: seq<Fill>): Ledger
    decreases |fills|
  {
    if fills == [] then l else ApplyFill(ApplyFills(l, fills[..|fills| - 1]), fills[|fills| - 1])
  }

  function Unrealized(l: Ledger, mid: real): real {
    if l.position == 0.0 || l.avgEntry <= 0.0 || mid <= 0.0 then 0.0
    else if l.position > 0.0 then (mid - l.avgEntry) * l.position
    else (l.avgEntry - mid) * -l.position
  }

  function TotalPnl(l: Ledger, mid: real): real {
    l.realized - l.fees + Unrealized(l, mid)
  }

  // ---------------------------------------------------------------- cash identity

  /** By how much the average-cost books differ from plain cash. */
  function Residual(l: Ledger): real {
    l.cash + l.fees + l.position * l.avgEntry - l.realized
  }

  /** The position a fill throws away by snapping to flat, and the price it was carried at: the entry
      price when the fill stopped short of flat, its own price when it went past. */
  function Dust(l: Ledger, f: Fill): real {
    if l.position == 0.0 || SameSign(l.position, f.Signed()) then 0.0
    else if Abs(l.position + f.Signed()) <= POSITION_EPSILON then l.position + f.Signed()
    else 0.0
  }

  function DustPrice(l: Ledger, f: Fill): real {
    if SameSign(l.position + f.Signed(), l.position) then l.avgEntry else f.price
  }

  lemma {:induction false} DivideBack(x: real, y: real)
    requires y > 0.0
    ensures y * (x / y) == x
  {
  }

  lemma {:induction false} ExtendResidual(l: Ledger, f: Fill)
    requires f.quantity > 0.0 && (l.position == 0.0 || SameSign(l.position, f.Signed()))
    ensures Extend(l, f).position * Extend(l, f).avgEntry == l.position * l.avgEntry + f.Signed() * f.price
  {
    var a := Abs(l.position);
    var x := l.avgEntry * a + f.price * f.quantity;
    var avg := x / (a + f.quantity);
    DivideBack(x, a + f.quantity);
    assert (a + f.quantity) * avg == l.avgEntry * a + f.price * f.quantity;
    if f.side.Bid? {
      assert Extend(l, f).position == a + f.quantity;
    } else {
      assert Extend(l, f).position == -(a + f.quantity);
      assert -(a + f.quantity) * avg == -((a + f.quantity) * avg);
      assert l.position * l.avgEntry == -(l.avgEntry * a);
    }
  }

  lemma {:induction false} ReduceResidual(l: Ledger, f: Fill)
    requires f.quantity > 0.0 && l.position != 0.0 && !SameSign(l.position, f.Signed())
    ensures var m := Reduce(l, f);
            m.position * m.avgEntry - m.realized ==
            l.position * l.avgEntry - l.realized + f.Signed() * f.price - Dust(l, f) * DustPrice(l, f)
  {
    var m := Reduce(l, f);
    var p, q, s, avg, px := l.position, f.quantity, f.Signed(), l.avgEntry, f.price;
    var raw := p + s;
    if Abs(p) < q {
      assert m.realized == l.realized + (px - avg) * p;
      assert (px - avg) * p == px * p - avg * p;
      assert raw * px == p * px + s * px;
    } else {
      assert m.realized == l.realized - (px - avg) * s;
      assert (px - avg) * s == px * s - avg * s;
      assert raw * avg == p * avg + s * avg;
    }
  }

  lemma {:induction false} MoveResidual(l: Ledger, f: Fill)
    requires f.quantity > 0.0
    ensures Residual(MovePosition(l, f)) == Residual(l) + f.Signed() * f.price - Dust(l, f) * DustPrice(l, f)
  {
    if l.position == 0.0 || SameSign(l.position, f.Signed()) {
      ExtendResidual(l, f);
    } else {
      ReduceResidual(l, f);
    }
  }

  lemma {:induction false} PayResidual(l: Ledger, f: Fill)
    ensures Residual(l.(cash := l.cash + f.Cashflow(), fees := l.fees + f.Fee())) ==
            Residual(l) - f.Signed() * f.price
  {
    assert f.Signed() * f.price == if f.side.Ask? then -(f.price * f.quantity) else f.price * f.quantity;
  }

  /** One fill leaves the books equal to cash up to exactly the dust it throws away. */
  lemma {:induction false} FillResidual(l: Ledger, f: Fill)
    requires f.quantity > 0.0
    ensures Residual(ApplyFill(l, f)) == Residual(l) - Dust(l, f) * DustPrice(l, f)
    ensures Abs(Dust(l, f)) <= POSITION_EPSILON
  {
    PayResidual(l, f);
    MoveResidual(l.(cash := l.cash + f.Cashflow(), fees := l.fees + f.Fee()), f);
  }

  /** Prices at which a run of fills snapped to flat, added up. */
  function SnapPrices(fills: seq<Fill>): real
    decreases |fills|
  {
    if fills == [] then 0.0
    else
      var init, f := fills[..|fills| - 1], fills[|fills| - 1];
      var l := ApplyFills(FLAT, init);
      SnapPrices(init) + if Dust(l, f) == 0.0 then 0.0 else Abs(DustPrice(l, f))
  }

  ghost predicate GoodFills(fills: seq<Fill>) {
    forall i :: 0 <= i < |fills| ==> fills[i].quantity > 0.0
  }

  /** The bound below is a millionth, the snap threshold, of a sum of prices. */
  ghost predicate WithinSnaps(error: real, snaps: real) {
    1000000.0 * Abs(error) <= snaps
  }

  lemma {:induction false} DustTimesPrice(d: real, px: real)
    requires Abs(d) <= POSITION_EPSILON
    ensures WithinSnaps(d * px, if d == 0.0 then 0.0 else Abs(px))
  {
    var m := 1000000.0 * Abs(d);
    assert Abs(d * px) == Abs(d) * Abs(px);
    assert m * Abs(px) <= Abs(px);
  }

  lemma {:induction false} AddWithin(x: real, y: real, m: real, n: real)
    requires WithinSnaps(x, m) && WithinSnaps(y, n)
    ensures WithinSnaps(x - y, m + n) && WithinSnaps(x + y, m + n)
  {
  }

  /** Main result: after any run of fills, cash, fees and inventory at entry price differ from realized
      profit by at most a millionth of the prices at which the position snapped to flat. */
  lemma {:induction false} BooksMatchCash(fills: seq<Fill>)
    requires GoodFills(fills)
    ensures WithinSnaps(Residual(ApplyFills(FLAT, fills)), SnapPrices(fills))
    decreases |fills|
  {
    if fills != [] {
      var init, f := fills[..|fills| - 1], fills[|fills| - 1];
      BooksMatchCash(init);
      StepResidual(ApplyFills(FLAT, init), f, SnapPrices(init));
    }
  }

  lemma {:induction false} StepResidual(l: Ledger, f: Fill, snaps: real)
    requires f.quantity > 0.0 && WithinSnaps(Residual(l), snaps)
    ensures WithinSnaps(Residual(ApplyFill(l, f)),
                        snaps + if Dust(l, f) == 0.0 then 0.0 else Abs(DustPrice(l, f)))
  {
    FillResidual(l, f);
    DustTimesPrice(Dust(l, f), DustPrice(l, f));
    AddWithin(Residual(l), Dust(l, f) * DustPrice(l, f), snaps,
              if Dust(l, f) == 0.0 then 0.0 else Abs(DustPrice(l, f)));
  }

  // ---------------------------------------------------------------- mark to market

  /** With a quoted market, total profit is cash plus the position at mid, less the residual, exactly
      when the book is flat or carries a positive entry price. */
  lemma {:induction false} TotalIsMarkToMarket(l: Ledger, mid: real)
    requires mid > 0.0
    ensures TotalPnl(l, mid) == l.cash + l.position * mid - Residual(l) <==> l.position == 0.0 || l.avgEntry > 0.0
  {
    assert (mid - l.avgEntry) * l.position == mid * l.position - l.avgEntry * l.position;
    if l.position != 0.0 && l.avgEntry <= 0.0 {
      assert (mid - l.avgEntry) * l.position != 0.0;
    }
  }

  /** With no market the position is valued at its entry price. */
  lemma {:induction false} TotalWithoutMarket(l: Ledger, mid: real)
    requires mid <= 0.0
    ensures TotalPnl(l, mid) == l.cash + l.position * l.avgEntry - Residual(l)
  {
  }

  ghost predicate PositivePrices(fills: seq<Fill>) {
    forall i :: 0 <= i < |fills| ==> fills[i].price > 0.0
  }

  ghost predicate EntryPriced(l: Ledger) {
    l.avgEntry >= 0.0 && (l.position != 0.0 ==> l.avgEntry > 0.0)
  }

  lemma {:induction false} AveragePositive(a: real, p: real, x: real, q: real)
    requires a >= 0.0 && p >= 0.0 && x > 0.0 && q > 0.0
    ensures (a * p + x * q) / (p + q) > 0.0
  {
    assert a * p >= 0.0 && x * q > 0.0;
    DivideBack(a * p + x * q, p + q);
  }

  lemma {:induction false} FillKeepsEntryPriced(l: Ledger, f: Fill)
    requires EntryPriced(l) && f.quantity > 0.0 && f.price > 0.0
    ensures EntryPriced(ApplyFill(l, f))
  {
    AveragePositive(l.avgEntry, Abs(l.position), f.price, f.quantity);
  }

  /** Fills at positive prices keep a positive entry price while there is a position. */
  lemma {:induction false} EntryPricePositive(fills: seq<Fill>)
    requires GoodFills(fills) && PositivePrices(fills)
    ensures EntryPriced(ApplyFills(FLAT, fills))
    decreases |fills|
  {
    if fills != [] {
      EntryPricePositive(fills[..|fills| - 1]);
      FillKeepsEntryPriced(ApplyFills(FLAT, fills[..|fills| - 1]), fills[|fills| - 1]);
    }
  }

  // ---------------------------------------------------------------- the four venues

  /** What a ledger is worth without any accounting: cash, and inventory at mid. */
  function MarkedCash(l: Ledger, mid: real): real {
    l.cash + l.position * mid
  }

  datatype Account = Account(fills: seq<Fill>, mid: real)
  {
    function Books(): Ledger {
      ApplyFills(FLAT, fills)
    }

    function Worth(): real {
      MarkedCash(Books(), mid)
    }
  }

  function NetPnl(accounts: seq<Account>): real {
    if accounts == [] then 0.0
    else NetPnl(accounts[..|accounts| - 1])
         + TotalPnl(accounts[|accounts| - 1].Books(), accounts[|accounts| - 1].mid)
  }

  function TotalWorth(accounts: seq<Account>): real {
    if accounts == [] then 0.0 else TotalWorth(accounts[..|accounts| - 1]) + accounts[|accounts| - 1].Worth()
  }

  function TotalSnaps(accounts: seq<Account>): real {
    if accounts == [] then 0.0
    else TotalSnaps(accounts[..|accounts| - 1]) + SnapPrices(accounts[|accounts| - 1].fills)
  }

  lemma {:induction false} AccountIsMarkToMarket(a: Account)
    requires GoodFills(a.fills) && PositivePrices(a.fills) && a.mid > 0.0
    ensures WithinSnaps(TotalPnl(a.Books(), a.mid) - a.Worth(), SnapPrices(a.fills))
  {
    BooksMatchCash(a.fills);
    EntryPricePositive(a.fills);
    PricedIsMarkToMarket(a.Books(), a.mid, SnapPrices(a.fills));
  }

  lemma {:induction false} PricedIsMarkToMarket(l: Ledger, mid: real, snaps: real)
    requires EntryPriced(l) && mid > 0.0 && WithinSnaps(Residual(l), snaps)
    ensures WithinSnaps(TotalPnl(l, mid) - MarkedCash(l, mid), snaps)
  {
    TotalIsMarkToMarket(l, mid);
  }

  /** The engine's sum over venues: reported profit is the worth of all accounts, up to a millionth of
      the prices at which positions snapped to flat. */
  lemma {:induction false} EngineIsMarkToMarket(accounts: seq<Account>)
    requires forall i :: 0 <= i < |accounts| ==>
               GoodFills(accounts[i].fills) && PositivePrices(accounts[i].fills) && accounts[i].mid > 0.0
    ensures WithinSnaps(NetPnl(accounts) - TotalWorth(accounts), TotalSnaps(accounts))
    decreases |accounts|
  {
    if accounts != [] {
      var init, last := accounts[..|accounts| - 1], accounts[|accounts| - 1];
      EngineIsMarkToMarket(init);
      AccountIsMarkToMarket(last);
      AddWithin(NetPnl(init) - TotalWorth(init), TotalPnl(last.Books(), last.mid) - last.Worth(),
                TotalSnaps(init), SnapPrices(last.fills));
    }
  }
}
