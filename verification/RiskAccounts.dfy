/** The risk totals in terms of the orders accepted: what each total is the sum of, what the caps therefore mean for
    any run of orders, and what a refusal says. */
module RiskAccounts {
  import opened Common
  import opened GlobalRisk

  /** The orders of a run that are accepted and moved into the totals. */
  function Accepted(cfg: Limits, t: Totals, orders: seq<Order>): seq<Order>
    requires |t.venues| == NUM_VENUES && t.gross >= 0.0
    decreases |orders|
  {
    if orders == [] || t.exhausted then []
    else
      (if CommitVerdict(cfg, t, orders[0]) == Ok then [orders[0]] else [])
      + Accepted(cfg, Commit(cfg, t, orders[0]), orders[1..])
  }

  /** Buys and sells added up. */
  function Volume(orders: seq<Order>): real {
    if orders == [] then 0.0
    else (if orders[0].notional < 0.0 then -orders[0].notional else orders[0].notional) + Volume(orders[1..])
  }

  /** Buys less sells. */
  function Net(orders: seq<Order>): real {
    if orders == [] then 0.0 else orders[0].notional + Net(orders[1..])
  }

  function AtVenue(orders: seq<Order>, venue: nat): seq<Order> {
    if orders == [] then []
    else (if orders[0].venue == venue then [orders[0]] else []) + AtVenue(orders[1..], venue)
  }

  function OfSymbol(orders: seq<Order>, symbol: string): seq<Order> {
    if orders == [] then []
    else (if orders[0].symbol == symbol then [orders[0]] else []) + OfSymbol(orders[1..], symbol)
  }

  predicate ShortNames(orders: seq<Order>) {
    forall i :: 0 <= i < |orders| ==> |orders[i].symbol| <= SYMBOL_CHARS
  }

  // ---------------------------------------------------------------- one commit

  lemma {:induction false} FindSame(a: seq<SymbolTotal>, b: seq<SymbolTotal>, symbol: string)
    requires |a| <= |b| && (forall i :: 0 <= i < |a| ==> a[i].symbol == b[i].symbol)
    ensures Find(a, symbol) < |a| ==> Find(b, symbol) == Find(a, symbol)
    ensures Find(a, symbol) == |a| ==> Find(b, symbol) == |a| + Find(b[|a|..], symbol)
    decreases |a|
  {
    if a == [] {
      assert b[0..] == b;
    } else if a[0].symbol != symbol {
      FindSame(a[1..], b[1..], symbol);
      assert b[1..][|a| - 1..] == b[|a|..];
    }
  }

  /** An order moves the entry of its own symbol and no other. */
  lemma {:induction false} EntryMoves(t: Totals, o: Order, symbol: string)
    requires o.venue < |t.venues| && |o.symbol| <= SYMBOL_CHARS
    ensures var r := Moved(t, o);
            var own := o.symbol == symbol;
            && GrossAt(r.symbols, Find(r.symbols, symbol)) ==
               GrossAt(t.symbols, Find(t.symbols, symbol)) + (if own then Abs(o.notional) else 0.0)
            && NetAt(r.symbols, Find(r.symbols, symbol)) ==
               NetAt(t.symbols, Find(t.symbols, symbol)) + (if own then o.notional else 0.0)
  {
    var r := Moved(t, o);
    var n := |t.symbols|;
    FindInRange(t.symbols, symbol);
    FindInRange(t.symbols, o.symbol);
    FindSame(t.symbols, r.symbols, symbol);
    if |r.symbols| > n {
      assert r.symbols[n..] == [r.symbols[n]];
      assert [r.symbols[n]][1..] == [];
    } else {
      assert r.symbols[n..] == [];
    }
  }

  // ---------------------------------------------------------------- over a run

  lemma {:induction false} VolumeSplit(a: seq<Order>, b: seq<Order>)
    ensures Volume(a + b) == Volume(a) + Volume(b) && Net(a + b) == Net(a) + Net(b)
    decreases |a|
  {
    if a == [] {
      assert a + b == b;
    } else {
      VolumeSplit(a[1..], b);
      assert (a + b)[1..] == a[1..] + b;
    }
  }

  lemma {:induction false} OneOrder(o: Order)
    ensures Volume([o]) == Abs(o.notional) && Net([o]) == o.notional
  {
    assert [o][1..] == [];
  }

  /** From one state of the totals to a later one these orders were moved in. */
  ghost predicate MovedBy(t: Totals, r: Totals, orders: seq<Order>)
    requires |t.venues| == |r.venues| == NUM_VENUES
  {
    && r.gross == t.gross + Volume(orders) && r.net == t.net + Net(orders)
    && forall v :: 0 <= v < NUM_VENUES ==> r.venues[v] == t.venues[v] + Volume(AtVenue(orders, v))
  }

  lemma {:induction false} FirstMoves(t: Totals, r: Totals, o: Order, rest: seq<Order>)
    requires |t.venues| == |r.venues| == NUM_VENUES && o.venue < NUM_VENUES && MovedBy(Moved(t, o), r, rest)
    ensures MovedBy(t, r, [o] + rest)
  {
    OneOrder(o);
    VolumeSplit([o], rest);
    assert ([o] + rest)[1..] == rest;
    forall v | 0 <= v < NUM_VENUES
      ensures r.venues[v] == t.venues[v] + Volume(AtVenue([o] + rest, v))
    {
      assert AtVenue([o] + rest, v) == (if o.venue == v then [o] else []) + AtVenue(rest, v);
      VolumeSplit(if o.venue == v then [o] else [], AtVenue(rest, v));
    }
  }

  lemma {:induction false} RunMoves(cfg: Limits, t: Totals, orders: seq<Order>)
    requires Inv(cfg, t)
    ensures |Run(cfg, t, orders).venues| == NUM_VENUES
    ensures MovedBy(t, Run(cfg, t, orders), Accepted(cfg, t, orders))
    decreases |orders|
  {
    if orders != [] && !t.exhausted {
      var o := orders[0];
      var u := Commit(cfg, t, o);
      CommitKeepsInv(cfg, t, o);
      RunMoves(cfg, u, orders[1..]);
      var rest := Accepted(cfg, u, orders[1..]);
      if CommitVerdict(cfg, t, o) == Ok {
        FirstMoves(t, Run(cfg, u, orders[1..]), o, rest);
      } else {
        assert [] + rest == rest;
        SameSums(t, u, Run(cfg, u, orders[1..]), rest);
      }
    }
  }

  lemma {:induction false} SameSums(t: Totals, u: Totals, r: Totals, orders: seq<Order>)
    requires |t.venues| == |u.venues| == |r.venues| == NUM_VENUES
    requires u.gross == t.gross && u.net == t.net && u.venues == t.venues && MovedBy(u, r, orders)
    ensures MovedBy(t, r, orders)
  {
  }

  lemma {:induction false} RunMovesEntry(cfg: Limits, t: Totals, orders: seq<Order>, symbol: string)
    requires Inv(cfg, t) && ShortNames(orders)
    ensures var r := Run(cfg, t, orders);
            var own := OfSymbol(Accepted(cfg, t, orders), symbol);
            && GrossAt(r.symbols, Find(r.symbols, symbol)) == GrossAt(t.symbols, Find(t.symbols, symbol)) + Volume(own)
            && NetAt(r.symbols, Find(r.symbols, symbol)) == NetAt(t.symbols, Find(t.symbols, symbol)) + Net(own)
    decreases |orders|
  {
    if orders != [] && !t.exhausted {
      var o := orders[0];
      var u := Commit(cfg, t, o);
      CommitKeepsInv(cfg, t, o);
      RunMovesEntry(cfg, u, orders[1..], symbol);
      var rest := Accepted(cfg, u, orders[1..]);
      if CommitVerdict(cfg, t, o) == Ok {
        EntryMoves(t, o, symbol);
        OneOrder(o);
        assert ([o] + rest)[1..] == rest;
        VolumeSplit(if o.symbol == symbol then [o] else [], OfSymbol(rest, symbol));
        assert OfSymbol([o] + rest, symbol) == (if o.symbol == symbol then [o] else []) + OfSymbol(rest, symbol);
      } else {
        assert [] + rest == rest;
      }
    }
  }

  lemma {:induction false} StartIsGood(cfg: Limits)
    ensures Inv(cfg, Start()) && GrossAt(Start().symbols, 0) == 0.0 && NetAt(Start().symbols, 0) == 0.0
  {
  }

  lemma {:induction false} FromNothing(r: Totals, done: seq<Order>)
    requires |r.venues| == NUM_VENUES && MovedBy(Start(), r, done)
    ensures r.gross == Volume(done) && r.net == Net(done)
    ensures forall v :: 0 <= v < NUM_VENUES ==> r.venues[v] == Volume(AtVenue(done, v))
  {
    forall v | 0 <= v < NUM_VENUES ensures r.venues[v] == Volume(AtVenue(done, v)) {
      assert Start().venues[v] == 0.0;
    }
  }

  /** Main result on the books: after any run the gross total is the volume of the orders accepted, the net one
      buys less sells, each venue's the volume accepted there, and, where names fit the table, each symbol's
      entry the volume and the net of its own orders. */
  lemma {:induction false} TotalsAreSums(cfg: Limits, orders: seq<Order>, symbol: string)
    ensures var r := Run(cfg, Start(), orders);
            var done := Accepted(cfg, Start(), orders);
            && r.gross == Volume(done) && r.net == Net(done)
            && |r.venues| == NUM_VENUES && (forall v :: 0 <= v < NUM_VENUES ==> r.venues[v] == Volume(AtVenue(done, v)))
            && (ShortNames(orders) ==>
                  && GrossAt(r.symbols, Find(r.symbols, symbol)) == Volume(OfSymbol(done, symbol))
                  && NetAt(r.symbols, Find(r.symbols, symbol)) == Net(OfSymbol(done, symbol)))
  {
    StartIsGood(cfg);
    RunMoves(cfg, Start(), orders);
    FromNothing(Run(cfg, Start(), orders), Accepted(cfg, Start(), orders));
    if ShortNames(orders) { RunMovesEntry(cfg, Start(), orders, symbol); }
  }

  /** Main result on the caps: whatever is submitted, in whatever order, the accepted volume stays within the gross
      cap, the accepted buys less sells within the net cap either way, and the volume accepted at a venue within
      the venue cap, as far as each cap is on. */
  lemma {:induction false} CapsHold(cfg: Limits, orders: seq<Order>)
    ensures var done := Accepted(cfg, Start(), orders);
            && (cfg.maxGross > 0.0 ==> Volume(done) <= cfg.maxGross)
            && (cfg.maxNet > 0.0 ==> -cfg.maxNet <= Net(done) <= cfg.maxNet)
            && (cfg.maxVenue > 0.0 ==> forall v :: 0 <= v < NUM_VENUES ==> Volume(AtVenue(done, v)) <= cfg.maxVenue)
  {
    LimitsHold(cfg, orders);
    TotalsAreSums(cfg, orders, "");
  }

  // ---------------------------------------------------------------- what a refusal says

  /** The check in plain terms: a real order, each cap that is on kept by what the totals would become, the
      concentration cap only once other symbols hold anything, the cross-venue cap only once this one does. */
  ghost predicate Allowed(cfg: Limits, t: Totals, o: Order)
    requires |t.venues| == NUM_VENUES
  {
    var size := Abs(o.notional);
    var before := GrossAt(t.symbols, Find(t.symbols, o.symbol));
    var net := NetAt(t.symbols, Find(t.symbols, o.symbol));
    && o.symbol != "" && o.notional != 0.0 && o.venue < 4
    && (cfg.maxGross > 0.0 ==> t.gross + size <= cfg.maxGross)
    && (cfg.maxNet > 0.0 ==> Abs(t.net + o.notional) <= cfg.maxNet)
    && (cfg.maxVenue > 0.0 ==> t.venues[o.venue] + size <= cfg.maxVenue)
    && (cfg.maxConcentration > 0.0 && t.gross > before ==> before + size <= cfg.maxConcentration * (t.gross + size))
    && (cfg.maxCrossVenueNet > 0.0 && before > 0.0 ==> Abs(net + o.notional) <= cfg.maxCrossVenueNet)
  }

  lemma {:induction false} PassesExactlyAllowed(cfg: Limits, t: Totals, o: Order)
    requires |t.venues| == NUM_VENUES && t.gross >= 0.0
    ensures Check(cfg, t, o) == Ok <==> Allowed(cfg, t, o)
  {
    if o.notional != 0.0 { ShareVerdict(cfg, t, Find(t.symbols, o.symbol), o.notional); }
  }

  /** A refusal names a cap that is on and that the order would break. */
  lemma {:induction false} RefusalIsTrue(cfg: Limits, t: Totals, o: Order)
    requires |t.venues| == NUM_VENUES && t.gross >= 0.0 && Check(cfg, t, o) != Ok
    ensures var size := Abs(o.notional);
            var before := GrossAt(t.symbols, Find(t.symbols, o.symbol));
            match Check(cfg, t, o)
            case InvalidInput => o.symbol == "" || o.notional == 0.0 || o.venue >= 4
            case GrossCap => 0.0 < cfg.maxGross < t.gross + size
            case NetCap => 0.0 < cfg.maxNet < Abs(t.net + o.notional)
            case VenueCap => o.venue < 4 && 0.0 < cfg.maxVenue < t.venues[o.venue] + size
            case ConcentrationCap =>
              cfg.maxConcentration > 0.0 && t.gross > before
              && before + size > cfg.maxConcentration * (t.gross + size)
            case CrossVenueCap =>
              before > 0.0
              && 0.0 < cfg.maxCrossVenueNet < Abs(NetAt(t.symbols, Find(t.symbols, o.symbol)) + o.notional)
            case _ => false
  {
    var before := GrossAt(t.symbols, Find(t.symbols, o.symbol));
    if o.notional != 0.0 { ShareBound(before + Abs(o.notional), t.gross + Abs(o.notional), cfg.maxConcentration); }
  }

  // ---------------------------------------------------------------- the futures gate in plain terms

  /** The symbol's own leverage limit, the first if it has several, or the default. */
  lemma {:induction false} LeverageForIs(leverages: seq<SymbolLeverage>, symbol: string, otherwise: real)
    ensures var limit := LeverageFor(leverages, symbol, otherwise);
            if exists i :: 0 <= i < |leverages| && leverages[i].symbol == symbol then
              exists i :: 0 <= i < |leverages| && leverages[i].symbol == symbol && limit == leverages[i].maxLeverage
                && forall j :: 0 <= j < i ==> leverages[j].symbol != symbol
            else limit == otherwise
    decreases |leverages|
  {
    if leverages != [] && leverages[0].symbol != symbol {
      var rest := leverages[1..];
      LeverageForIs(rest, symbol, otherwise);
      if i :| 0 <= i < |leverages| && leverages[i].symbol == symbol {
        assert rest[i - 1].symbol == symbol;
        var k :| 0 <= k < |rest| && rest[k].symbol == symbol
                 && LeverageFor(rest, symbol, otherwise) == rest[k].maxLeverage
                 && forall j :: 0 <= j < k ==> rest[j].symbol != symbol;
        assert leverages[k + 1].symbol == symbol;
        forall j | 0 <= j < k + 1 ensures leverages[j].symbol != symbol {
          if j > 0 { assert rest[j - 1].symbol != symbol; }
        }
      }
    }
  }

  lemma {:induction false} GateThenCheck(cfg: Limits, f: FuturesLimits, t: Totals, o: Order, c: Context, scaled: real)
    requires |t.venues| == NUM_VENUES && t.gross >= 0.0 && scaled == Scaled(f, o.symbol, o.notional, c)
    ensures CheckFutures(cfg, f, t, o, c) == Ok <==>
            Gate(f, o.symbol, o.notional, c) == Ok && Check(cfg, t, o.(notional := scaled)) == Ok
  {
  }

  lemma {:induction false} ScaledIs(f: FuturesLimits, symbol: string, notional: real, c: Context)
    ensures f.enabled && Gate(f, symbol, notional, c) == Ok ==>
              Scaled(f, symbol, notional, c) == notional * FundingScale(f, FundingCost(c))
    ensures !f.enabled ==> Gate(f, symbol, notional, c) == Ok && Scaled(f, symbol, notional, c) == notional
  {
  }

  /** A futures order passes exactly if the gate lets it and, scaled for its funding, it is allowed like any other
      order. */
  lemma {:induction false} FuturesPassExactly(cfg: Limits, f: FuturesLimits, t: Totals, o: Order, c: Context, scaled: real)
    requires |t.venues| == NUM_VENUES && t.gross >= 0.0
    requires scaled == if f.enabled then o.notional * FundingScale(f, FundingCost(c)) else o.notional
    ensures CheckFutures(cfg, f, t, o, c) == Ok <==>
            (f.enabled ==> Gate(f, o.symbol, o.notional, c) == Ok) && Allowed(cfg, t, o.(notional := scaled))
  {
    ScaledIs(f, o.symbol, o.notional, c);
    GateThenCheck(cfg, f, t, o, c, Scaled(f, o.symbol, o.notional, c));
    PassesExactlyAllowed(cfg, t, o.(notional := scaled));
  }

  lemma {:induction false} EighthHours(bps: real, hours: real, cap: real)
    ensures bps * (hours / 8.0) > cap <==> bps * hours > 8.0 * cap
  {
    assert 8.0 * (bps * (hours / 8.0)) == bps * hours;
  }

  /** The gate passes an order exactly if its context makes sense and every cap that is on holds: the maintenance
      margin, the distance of mark from index in basis points, the position after the order over the collateral,
      and the funding paid until the position is due, eight hours at a time. */
  lemma {:induction false} GateInFields(f: FuturesLimits, symbol: string, notional: real, c: Context)
    requires f.enabled
    ensures var leverage := LeverageFor(f.leverages, symbol, f.defaultLeverage);
            Gate(f, symbol, notional, c) == Ok <==>
              && symbol != "" && c.collateral > 0.0 && c.current >= 0.0 && c.mark > 0.0 && c.index > 0.0
              && c.maintenance >= 0.0 && c.hours >= 0.0
              && (f.maxMaintenance > 0.0 ==> c.maintenance <= f.maxMaintenance)
              && (f.maxDivergenceBps > 0.0 ==> 10000.0 * Abs(c.mark - c.index) <= f.maxDivergenceBps * c.index)
              && (leverage > 0.0 ==> c.current + Abs(notional) <= leverage * c.collateral)
              && (f.maxFundingBps > 0.0 ==> Abs(c.fundingBps) * c.hours <= 8.0 * f.maxFundingBps)
  {
    GateExactly(f, symbol, notional, c);
    EighthHours(Abs(c.fundingBps), c.hours, f.maxFundingBps);
  }
}
