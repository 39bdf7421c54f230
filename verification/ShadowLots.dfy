/** What average cost means: the ledger is exactly a set of lots, opened at the prices paid, of which every
    closing fill takes the same share from each. */
module ShadowLots {
  import opened Common
  import opened ShadowLedger

  // ---------------------------------------------------------------- one fill

  /** The fill trades against the position. */
  predicate Against(l: Ledger, f: Fill) {
    (l.position > 0.0 && f.side == Ask) || (l.position < 0.0 && f.side == Bid)
  }

  /** What a unit closed at this price gains. */
  function UnitGain(l: Ledger, price: real): real {
    if l.position > 0.0 then price - l.avgEntry else l.avgEntry - price
  }

  /** A fill that opens a position or adds to it realizes nothing; what the position cost goes up by what the
      fill cost. */
  lemma {:induction false} AddingRealizesNothing(l: Ledger, f: Fill)
    requires f.quantity > 0.0 && !Against(l, f)
    ensures var t := ApplyFill(l, f);
            && t.realized == l.realized
            && t.position == (if f.side == Bid then l.position + f.quantity else l.position - f.quantity)
            && t.avgEntry * Abs(t.position) == l.avgEntry * Abs(l.position) + f.price * f.quantity
  {
    var cost := l.avgEntry * Abs(l.position) + f.price * f.quantity;
    DivideBack(cost, Abs(l.position) + f.quantity);
  }

  /** A fill against the position that does not cross it gains its quantity times the distance from the entry
      price, and leaves the entry price of the rest alone; a rest within the threshold is dropped. */
  lemma {:induction false} ClosingKeepsEntry(l: Ledger, f: Fill)
    requires f.quantity > 0.0 && Against(l, f) && f.quantity <= Abs(l.position)
    ensures var t := ApplyFill(l, f);
            && t.realized == l.realized + UnitGain(l, f.price) * f.quantity
            && if Abs(l.position) - f.quantity > POSITION_EPSILON then
                 t.avgEntry == l.avgEntry
                 && t.position == (if l.position > 0.0 then l.position - f.quantity else l.position + f.quantity)
               else t.avgEntry == 0.0 && t.position == 0.0
  {
  }

  /** One that crosses gains on the whole old position and opens what is left over at its own price. */
  lemma {:induction false} CrossingReopens(l: Ledger, f: Fill)
    requires f.quantity > 0.0 && Against(l, f) && f.quantity > Abs(l.position)
    ensures var t := ApplyFill(l, f);
            && t.realized == l.realized + UnitGain(l, f.price) * Abs(l.position)
            && if f.quantity - Abs(l.position) > POSITION_EPSILON then
                 t.avgEntry == f.price
                 && t.position == (if f.side == Bid then f.quantity - Abs(l.position) else Abs(l.position) - f.quantity)
               else t.avgEntry == 0.0 && t.position == 0.0
  {
  }

  // ---------------------------------------------------------------- lots

  datatype Lot = Lot(quantity: real, price: real)

  /** The lots held on one side, and what the closed ones have gained. */
  datatype Holding = Holding(side: Side, lots: seq<Lot>, gained: real)

  function Quantity(lots: seq<Lot>): real {
    if lots == [] then 0.0 else lots[0].quantity + Quantity(lots[1..])
  }

  function Paid(lots: seq<Lot>): real {
    if lots == [] then 0.0 else lots[0].quantity * lots[0].price + Paid(lots[1..])
  }

  /** The same share of every lot. */
  function Share(lots: seq<Lot>, share: real): seq<Lot> {
    if lots == [] then [] else [Lot(share * lots[0].quantity, lots[0].price)] + Share(lots[1..], share)
  }

  /** What closing these lots at a price gains, lot by lot. */
  function GainOf(side: Side, lots: seq<Lot>, price: real): real {
    if lots == [] then 0.0
    else
      lots[0].quantity * (if side == Bid then price - lots[0].price else lots[0].price - price)
      + GainOf(side, lots[1..], price)
  }

  /** A fill on the side held is a new lot; one against it closes the same share of every lot, all of them when
      it is as large or leaves only dust, and what is then left of it opens a lot of its own. */
  function Trade(h: Holding, f: Fill): Holding {
    if h.lots == [] then Holding(f.side, [Lot(f.quantity, f.price)], h.gained)
    else if f.side == h.side then h.(lots := h.lots + [Lot(f.quantity, f.price)])
    else
      var held := Quantity(h.lots);
      if f.quantity < held then
        var closed := if held > 0.0 then f.quantity / held else 0.0;
        var gained := h.gained + GainOf(h.side, Share(h.lots, closed), f.price);
        Holding(h.side, if held - f.quantity <= POSITION_EPSILON then [] else Share(h.lots, 1.0 - closed), gained)
      else
        Holding(f.side, if f.quantity - held <= POSITION_EPSILON then [] else [Lot(f.quantity - held, f.price)],
                h.gained + GainOf(h.side, h.lots, f.price))
  }

  function TradeAll(fills: seq<Fill>): Holding
    decreases |fills|
  {
    if fills == [] then Holding(Bid, [], 0.0) else Trade(TradeAll(fills[..|fills| - 1]), fills[|fills| - 1])
  }

  ghost predicate Held(lots: seq<Lot>) {
    forall i :: 0 <= i < |lots| ==> lots[i].quantity > 0.0
  }

  /** At this price each, the quantity costs what was paid. */
  ghost predicate Costs(price: real, quantity: real, paid: real) {
    price * quantity == paid
  }

  /** The ledger's position, entry price and realized profit are those of the lots. */
  ghost predicate IsOf(l: Ledger, h: Holding) {
    && Held(h.lots) && l.realized == h.gained
    && l.position == (if h.side == Bid then Quantity(h.lots) else -Quantity(h.lots))
    && Costs(l.avgEntry, Quantity(h.lots), Paid(h.lots))
    && (h.lots == [] ==> l.avgEntry == 0.0)
  }

  lemma {:induction false} HeldQuantity(lots: seq<Lot>)
    requires Held(lots)
    ensures Quantity(lots) >= 0.0 && (lots != [] ==> Quantity(lots) > 0.0)
  {
    if lots != [] { HeldQuantity(lots[1..]); }
  }

  lemma {:induction false} Appended(lots: seq<Lot>, lot: Lot)
    ensures Quantity(lots + [lot]) == Quantity(lots) + lot.quantity
    ensures Paid(lots + [lot]) == Paid(lots) + lot.quantity * lot.price
  {
    if lots == [] {
      assert [] + [lot] == [lot] && [lot][1..] == [];
    } else {
      Appended(lots[1..], lot);
      assert (lots + [lot])[1..] == lots[1..] + [lot];
    }
  }

  // Sums over a share of every lot.

  lemma {:induction false} Distribute(s: real, q: real, rest: real)
    ensures s * (q + rest) == s * q + s * rest
  {
  }

  lemma {:induction false} Reassociate(a: real, b: real, c: real)
    ensures (a * b) * c == a * (b * c) && a * (b * c) == b * (a * c)
  {
  }

  lemma {:induction false} SharedQuantity(lots: seq<Lot>, share: real)
    ensures Quantity(Share(lots, share)) == share * Quantity(lots)
  {
    if lots != [] {
      SharedQuantity(lots[1..], share);
      Distribute(share, lots[0].quantity, Quantity(lots[1..]));
      assert Share(lots, share)[1..] == Share(lots[1..], share);
    }
  }

  lemma {:induction false} SharedPaid(lots: seq<Lot>, share: real)
    ensures Paid(Share(lots, share)) == share * Paid(lots)
  {
    if lots != [] {
      var lot := lots[0];
      SharedPaid(lots[1..], share);
      Distribute(share, lot.quantity * lot.price, Paid(lots[1..]));
      Reassociate(share, lot.quantity, lot.price);
      assert Share(lots, share)[1..] == Share(lots[1..], share);
    }
  }

  lemma {:induction false} SharedHeld(lots: seq<Lot>, share: real)
    requires Held(lots) && share > 0.0
    ensures Held(Share(lots, share)) && |Share(lots, share)| == |lots|
    decreases |lots|
  {
    if lots != [] {
      SharedHeld(lots[1..], share);
      PositiveProduct(share, lots[0].quantity);
      HeldLonger(Lot(share * lots[0].quantity, lots[0].price), Share(lots[1..], share));
    }
  }

  lemma {:induction false} HeldLonger(lot: Lot, rest: seq<Lot>)
    requires lot.quantity > 0.0 && Held(rest)
    ensures Held([lot] + rest)
  {
  }

  lemma {:induction false} PositiveProduct(a: real, b: real)
    requires a > 0.0 && b > 0.0
    ensures a * b > 0.0
  {
  }

  /** A share that makes up `q` of the whole was paid for at the average price. */
  lemma {:induction false} ShareCosts(lots: seq<Lot>, share: real, q: real, avg: real)
    requires Costs(share, Quantity(lots), q) && Costs(avg, Quantity(lots), Paid(lots))
    ensures Quantity(Share(lots, share)) == q && Costs(avg, q, Paid(Share(lots, share)))
  {
    SharedQuantity(lots, share);
    SharedPaid(lots, share);
    Reassociate(share, avg, Quantity(lots));
  }

  // What closing gains.

  lemma {:induction false} LotGain(q: real, price: real, p: real, rest: real)
    ensures q * (price - p) + (price * rest) == price * (q + rest) - q * p
    ensures q * (p - price) - (price * rest) == q * p - price * (q + rest)
  {
  }

  /** Lot by lot or at the average, the gain is the same. */
  lemma {:induction false} GainIs(side: Side, lots: seq<Lot>, price: real)
    ensures GainOf(side, lots, price) ==
            if side == Bid then price * Quantity(lots) - Paid(lots) else Paid(lots) - price * Quantity(lots)
  {
    if lots != [] {
      GainIs(side, lots[1..], price);
      LotGain(lots[0].quantity, price, lots[0].price, Quantity(lots[1..]));
    }
  }

  lemma {:induction false} Difference(price: real, avg: real, q: real)
    ensures (price - avg) * q == price * q - avg * q && (avg - price) * q == avg * q - price * q
  {
  }

  /** Closing lots that cost the entry price gains what the ledger says. */
  lemma {:induction false} GainAtAverage(l: Ledger, side: Side, closed: seq<Lot>, q: real, price: real)
    requires Quantity(closed) == q && Costs(l.avgEntry, q, Paid(closed)) && (side == Bid <==> l.position > 0.0)
    ensures Costs(UnitGain(l, price), q, GainOf(side, closed, price))
  {
    GainIs(side, closed, price);
    Difference(price, l.avgEntry, q);
  }

  // Shares of a whole.

  lemma {:induction false} Complement(share: real, whole: real)
    ensures (1.0 - share) * whole == whole - share * whole
  {
  }

  lemma {:induction false} SignOf(a: real, b: real)
    requires b > 0.0
    ensures a * b > 0.0 <==> a > 0.0
  {
    if a <= 0.0 { assert -a * b >= 0.0; }
  }

  lemma {:induction false} Divided(part: real, whole: real) returns (share: real)
    requires whole > 0.0
    ensures share == part / whole && Costs(share, whole, part)
  {
    share := part / whole;
  }

  lemma {:induction false} ProperShare(share: real, whole: real, part: real)
    requires 0.0 < part < whole && Costs(share, whole, part)
    ensures 0.0 < share < 1.0 && Costs(1.0 - share, whole, whole - part)
  {
    SignOf(share, whole);
    SignOf(1.0 - share, whole);
    Complement(share, whole);
  }

  // One fill on both.

  lemma {:induction false} Flat(l: Ledger, k: Holding)
    requires l.position == 0.0 && l.avgEntry == 0.0 && l.realized == k.gained && k.lots == []
    ensures IsOf(l, k)
  {
  }

  /** A ledger is that of lots which hold its position and cost its entry price. */
  lemma {:induction false} IsOfLots(l: Ledger, k: Holding, held: real, paid: real)
    requires Held(k.lots) && k.lots != [] && Quantity(k.lots) == held && Paid(k.lots) == paid
    requires l.realized == k.gained && Costs(l.avgEntry, held, paid)
    requires l.position == if k.side == Bid then held else -held
    ensures IsOf(l, k)
  {
  }

  lemma {:induction false} OneLot(q: real, p: real)
    requires q > 0.0
    ensures Quantity([Lot(q, p)]) == q && Costs(p, q, Paid([Lot(q, p)])) && Held([Lot(q, p)])
  {
    assert [Lot(q, p)][1..] == [];
  }

  lemma {:induction false} AddedLot(lots: seq<Lot>, q: real, p: real)
    requires Held(lots) && q > 0.0
    ensures var more := lots + [Lot(q, p)];
            Held(more) && Quantity(more) == Quantity(lots) + q && Paid(more) == Paid(lots) + p * q
  {
    Appended(lots, Lot(q, p));
  }

  lemma {:induction false} OpenTrade(h: Holding, f: Fill)
    requires h.lots == [] || f.side == h.side
    ensures Trade(h, f) == Holding(f.side, h.lots + [Lot(f.quantity, f.price)], h.gained)
  {
    assert h.lots == [] ==> h.lots + [Lot(f.quantity, f.price)] == [Lot(f.quantity, f.price)];
  }

  lemma {:induction false} AddingCosts(l: Ledger, f: Fill, held: real, paid: real)
    requires f.quantity > 0.0 && !Against(l, f) && held == Abs(l.position) && Costs(l.avgEntry, held, paid)
    ensures Costs(ApplyFill(l, f).avgEntry, held + f.quantity, paid + f.price * f.quantity)
  {
    DivideBack(paid + f.price * f.quantity, held + f.quantity);
  }

  lemma {:induction false} OpenIsOf(l: Ledger, h: Holding, f: Fill)
    requires IsOf(l, h) && f.quantity > 0.0 && !Against(l, f)
    ensures IsOf(ApplyFill(l, f), Trade(h, f))
  {
    HeldQuantity(h.lots);
    AddingRealizesNothing(l, f);
    AddingCosts(l, f, Quantity(h.lots), Paid(h.lots));
    OpenTrade(h, f);
    AddedLot(h.lots, f.quantity, f.price);
    IsOfLots(ApplyFill(l, f), Trade(h, f), Quantity(h.lots) + f.quantity, Paid(h.lots) + f.price * f.quantity);
  }

  /** The lots a closing fill leaves, told by the share it takes. */
  lemma {:induction false} CloseTrade(h: Holding, f: Fill) returns (share: real)
    requires h.lots != [] && f.side != h.side && 0.0 < f.quantity < Quantity(h.lots)
    ensures Costs(share, Quantity(h.lots), f.quantity)
    ensures Trade(h, f) ==
            Holding(h.side, if Quantity(h.lots) - f.quantity <= POSITION_EPSILON then [] else Share(h.lots, 1.0 - share),
                    h.gained + GainOf(h.side, Share(h.lots, share), f.price))
  {
    share := Divided(f.quantity, Quantity(h.lots));
  }

  /** What the two shares of the lots hold, cost and gain. */
  lemma {:induction false} SharesOf(l: Ledger, h: Holding, q: real, price: real, share: real)
    requires Held(h.lots) && h.lots != [] && Costs(l.avgEntry, Quantity(h.lots), Paid(h.lots))
    requires 0.0 < q < Quantity(h.lots) && Costs(share, Quantity(h.lots), q) && (h.side == Bid <==> l.position > 0.0)
    ensures Costs(UnitGain(l, price), q, GainOf(h.side, Share(h.lots, share), price))
    ensures var rest, left := Share(h.lots, 1.0 - share), Quantity(h.lots) - q;
            Held(rest) && rest != [] && Quantity(rest) == left && Costs(l.avgEntry, left, Paid(rest))
  {
    ProperShare(share, Quantity(h.lots), q);
    ShareCosts(h.lots, share, q, l.avgEntry);
    GainAtAverage(l, h.side, Share(h.lots, share), q, price);
    SharedHeld(h.lots, 1.0 - share);
    ShareCosts(h.lots, 1.0 - share, Quantity(h.lots) - q, l.avgEntry);
  }

  /** What closing does to the lots, without the share: what it gains, and what is left. */
  lemma {:induction false} ClosingLots(l: Ledger, h: Holding, f: Fill) returns (gain: real, rest: seq<Lot>)
    requires IsOf(l, h) && f.quantity > 0.0 && Against(l, f) && f.quantity < Abs(l.position)
    ensures Costs(UnitGain(l, f.price), f.quantity, gain)
    ensures Trade(h, f) ==
            Holding(h.side, if Quantity(h.lots) - f.quantity <= POSITION_EPSILON then [] else rest, h.gained + gain)
    ensures var left := Quantity(h.lots) - f.quantity;
            Held(rest) && rest != [] && Quantity(rest) == left && Costs(l.avgEntry, left, Paid(rest))
  {
    HeldQuantity(h.lots);
    var share := CloseTrade(h, f);
    SharesOf(l, h, f.quantity, f.price, share);
    gain, rest := GainOf(h.side, Share(h.lots, share), f.price), Share(h.lots, 1.0 - share);
  }

  lemma {:induction false} CloseIsOf(l: Ledger, h: Holding, f: Fill)
    requires IsOf(l, h) && f.quantity > 0.0 && Against(l, f) && f.quantity < Abs(l.position)
    ensures IsOf(ApplyFill(l, f), Trade(h, f))
  {
    HeldQuantity(h.lots);
    var gain, rest := ClosingLots(l, h, f);
    ClosedLedger(l, f, gain);
    ClosedIsOf(l, ApplyFill(l, f), h, Trade(h, f), f.quantity, gain, rest);
  }

  lemma {:induction false} ClosedLedger(l: Ledger, f: Fill, gain: real)
    requires f.quantity > 0.0 && Against(l, f) && f.quantity < Abs(l.position)
    requires Costs(UnitGain(l, f.price), f.quantity, gain)
    ensures var t := ApplyFill(l, f);
            t.realized == l.realized + gain
            && if Abs(l.position) - f.quantity > POSITION_EPSILON then
                 t.avgEntry == l.avgEntry
                 && t.position == (if l.position > 0.0 then l.position - f.quantity else l.position + f.quantity)
               else t.avgEntry == 0.0 && t.position == 0.0
  {
    ClosingKeepsEntry(l, f);
  }

  lemma {:induction false} ClosedIsOf(l: Ledger, t: Ledger, h: Holding, k: Holding, q: real, gain: real, rest: seq<Lot>)
    requires IsOf(l, h) && h.lots != [] && 0.0 < q < Quantity(h.lots)
    requires t.realized == l.realized + gain
    requires k == Holding(h.side, if Quantity(h.lots) - q <= POSITION_EPSILON then [] else rest, h.gained + gain)
    requires Held(rest) && rest != [] && Quantity(rest) == Quantity(h.lots) - q
    requires Costs(l.avgEntry, Quantity(h.lots) - q, Paid(rest))
    requires if Abs(l.position) - q > POSITION_EPSILON then
               t.avgEntry == l.avgEntry && t.position == (if l.position > 0.0 then l.position - q else l.position + q)
             else t.avgEntry == 0.0 && t.position == 0.0
    ensures IsOf(t, k)
  {
    if Quantity(h.lots) - q <= POSITION_EPSILON {
      Flat(t, k);
    } else {
      IsOfLots(t, k, Quantity(h.lots) - q, Paid(rest));
    }
  }

  lemma {:induction false} CrossTrade(h: Holding, f: Fill)
    requires h.lots != [] && f.side != h.side && f.quantity >= Quantity(h.lots)
    ensures Trade(h, f) ==
            Holding(f.side, if f.quantity - Quantity(h.lots) <= POSITION_EPSILON then []
                            else [Lot(f.quantity - Quantity(h.lots), f.price)],
                    h.gained + GainOf(h.side, h.lots, f.price))
  {
  }

  lemma {:induction false} CrossIsOf(l: Ledger, h: Holding, f: Fill)
    requires IsOf(l, h) && f.quantity > 0.0 && Against(l, f) && f.quantity >= Abs(l.position)
    ensures IsOf(ApplyFill(l, f), Trade(h, f))
  {
    HeldQuantity(h.lots);
    if f.quantity == Abs(l.position) { ClosingKeepsEntry(l, f); } else { CrossingReopens(l, f); }
    CrossTrade(h, f);
    GainAtAverage(l, h.side, h.lots, Quantity(h.lots), f.price);
    CrossedIsOf(ApplyFill(l, f), Trade(h, f), f.side, f.quantity - Quantity(h.lots), f.price);
  }

  lemma {:induction false} CrossedIsOf(t: Ledger, k: Holding, side: Side, left: real, price: real)
    requires left >= 0.0 && t.realized == k.gained && k.side == side
    requires k.lots == if left <= POSITION_EPSILON then [] else [Lot(left, price)]
    requires if left > POSITION_EPSILON then t.avgEntry == price && t.position == (if side == Bid then left else -left)
             else t.avgEntry == 0.0 && t.position == 0.0
    ensures IsOf(t, k)
  {
    if left <= POSITION_EPSILON {
      Flat(t, k);
    } else {
      OneLot(left, price);
      IsOfLots(t, k, left, Paid(k.lots));
    }
  }

  /** Main result: after any run of fills the ledger is that of lots bought at the prices paid and closed in
      equal shares: its realized profit is what the closed shares gained lot by lot, its position what the
      open ones hold, and its entry price what they cost on average. */
  lemma {:induction false} LedgerIsLots(fills: seq<Fill>)
    requires GoodFills(fills)
    ensures IsOf(ApplyFills(FLAT, fills), TradeAll(fills))
    decreases |fills|
  {
    if fills == [] {
      Flat(FLAT, TradeAll([]));
    } else {
      var init, f := fills[..|fills| - 1], fills[|fills| - 1];
      LedgerIsLots(init);
      var l, h := ApplyFills(FLAT, init), TradeAll(init);
      if !Against(l, f) {
        OpenIsOf(l, h, f);
      } else if f.quantity < Abs(l.position) {
        CloseIsOf(l, h, f);
      } else {
        CrossIsOf(l, h, f);
      }
    }
  }

  // ---------------------------------------------------------------- cash and fees

  /** Money out for buys less money in for sells. */
  function Spent(fills: seq<Fill>): real
    decreases |fills|
  {
    if fills == [] then 0.0
    else
      var f := fills[|fills| - 1];
      Spent(fills[..|fills| - 1]) + if f.side == Bid then f.price * f.quantity else -(f.price * f.quantity)
  }

  /** Basis points of the notionals traded. */
  function BasisPoints(fills: seq<Fill>): real
    decreases |fills|
  {
    if fills == [] then 0.0
    else
      var f := fills[|fills| - 1];
      BasisPoints(fills[..|fills| - 1]) + f.feeBps * (f.price * f.quantity)
  }

  lemma {:induction false} FeeIs(f: Fill)
    ensures 10000.0 * f.Fee() == f.feeBps * (f.price * f.quantity)
  {
    assert 10000.0 * (f.feeBps / 10000.0 * f.price * f.quantity) == f.feeBps * f.price * f.quantity;
  }

  /** Over any run the fees are each fill's basis points of its notional, and the cash what the fills cost and
      the fees. */
  lemma {:induction false} CashIsSpent(fills: seq<Fill>)
    ensures var l := ApplyFills(FLAT, fills);
            10000.0 * l.fees == BasisPoints(fills) && l.cash == -Spent(fills) - l.fees
    decreases |fills|
  {
    if fills != [] {
      CashIsSpent(fills[..|fills| - 1]);
      FeeIs(fills[|fills| - 1]);
    }
  }
}
