/** Portfolio-wide notional limits: the check before an order, the totals a commit moves, the symbol
    table behind them, and the gate futures orders pass first. */
module GlobalRisk {
  import opened Common

  const MAX_SYMBOLS: nat := 32
  const NUM_VENUES: nat := 4
  const SYMBOL_CHARS: nat := 15

  datatype Limits = Limits(
    maxGross: real, maxNet: real, maxConcentration: real, maxVenue: real, maxCrossVenueNet: real, killOnBreach: bool)

  datatype Verdict =
    | Ok | InvalidInput | GrossCap | NetCap | ConcentrationCap | VenueCap | CrossVenueCap
    | LeverageCap | MaintenanceCap | DivergenceCap | FundingCap

  /** An order to commit; a venue number of four or more is an exchange without a total. */
  datatype Order = Order(venue: nat, symbol: string, notional: real)

  datatype SymbolTotal = SymbolTotal(symbol: string, gross: real, net: real)

  /** The totals; `log` lists the table entry of every committed order, oldest first. `exhausted` is set by an
      order that needed a thirty-third entry: after it the source's table scan runs past its end. */
  datatype Totals = Totals(
    gross: real, net: real, venues: seq<real>, symbols: seq<SymbolTotal>, log: seq<nat>, exhausted: bool)

  /** What fits in the table's name field. */
  function Clip(symbol: string): string {
    if |symbol| <= SYMBOL_CHARS then symbol else symbol[..SYMBOL_CHARS]
  }

  /** The first entry with this name, or the number of entries. A name too long for the field is never
      found: the table holds only its first fifteen characters. */
  function Find(symbols: seq<SymbolTotal>, symbol: string): nat {
    if symbols == [] || symbols[0].symbol == symbol then 0 else 1 + Find(symbols[1..], symbol)
  }

  function GrossAt(symbols: seq<SymbolTotal>, i: nat): real {
    if i < |symbols| then symbols[i].gross else 0.0
  }

  function NetAt(symbols: seq<SymbolTotal>, i: nat): real {
    if i < |symbols| then symbols[i].net else 0.0
  }

  /** A cap of zero or less is off. */
  predicate Exceeds(cap: real, value: real) {
    cap > 0.0 && value > cap
  }

  function CheckSymbol(cfg: Limits, t: Totals, i: nat, notional: real): Verdict
    requires notional != 0.0 && t.gross >= 0.0
  {
    var size := Abs(notional);
    var before := GrossAt(t.symbols, i);
    if cfg.maxConcentration > 0.0 && t.gross - before > 0.0
       && (before + size) / (t.gross + size) > cfg.maxConcentration then ConcentrationCap
    else if before > 0.0 && Exceeds(cfg.maxCrossVenueNet, Abs(NetAt(t.symbols, i) + notional)) then CrossVenueCap
    else Ok
  }

  function Check(cfg: Limits, t: Totals, o: Order): Verdict
    requires |t.venues| == NUM_VENUES && t.gross >= 0.0
  {
    var size := Abs(o.notional);
    if o.symbol == "" || o.notional == 0.0 then InvalidInput
    else if Exceeds(cfg.maxGross, t.gross + size) then GrossCap
    else if Exceeds(cfg.maxNet, Abs(t.net + o.notional)) then NetCap
    else if o.venue >= NUM_VENUES then InvalidInput
    else if Exceeds(cfg.maxVenue, t.venues[o.venue] + size) then VenueCap
    else CheckSymbol(cfg, t, Find(t.symbols, o.symbol), o.notional)
  }

  /** Whether committing this order would not need a thirty-third entry. */
  predicate HasRoom(t: Totals, o: Order) {
    Find(t.symbols, o.symbol) < MAX_SYMBOLS
  }

  function AddSymbol(symbols: seq<SymbolTotal>, i: nat, symbol: string, notional: real): seq<SymbolTotal>
    requires i <= |symbols|
  {
    var grown := if i == |symbols| then symbols + [SymbolTotal(Clip(symbol), 0.0, 0.0)] else symbols;
    grown[i := SymbolTotal(grown[i].symbol, grown[i].gross + Abs(notional), grown[i].net + notional)]
  }

  lemma {:induction false} FindInRange(symbols: seq<SymbolTotal>, symbol: string)
    ensures var i := Find(symbols, symbol);
            && i <= |symbols| && (i < |symbols| ==> symbols[i].symbol == symbol)
            && forall j :: 0 <= j < i ==> symbols[j].symbol != symbol
    decreases |symbols|
  {
    if symbols != [] && symbols[0].symbol != symbol {
      FindInRange(symbols[1..], symbol);
      var i := Find(symbols, symbol);
      forall j | 0 <= j < i
        ensures symbols[j].symbol != symbol
      {
        assert j > 0 ==> symbols[1..][j - 1] == symbols[j];
      }
    }
  }

  /** An accepted order moves every total it belongs to; a refused one moves nothing. */
  function Commit(cfg: Limits, t: Totals, o: Order): Totals
    requires |t.venues| == NUM_VENUES && t.gross >= 0.0
  {
    if Check(cfg, t, o) != Ok then t
    else if HasRoom(t, o) then Moved(t, o)
    else t.(exhausted := true)
  }

  /** What the caller is told; an order without room in the table has passed the check. */
  function CommitVerdict(cfg: Limits, t: Totals, o: Order): Verdict
    requires |t.venues| == NUM_VENUES && t.gross >= 0.0
  {
    if Check(cfg, t, o) == Ok && !HasRoom(t, o) then InvalidInput else Check(cfg, t, o)
  }

  function Moved(t: Totals, o: Order): Totals
    requires o.venue < |t.venues|
  {
    FindInRange(t.symbols, o.symbol);
    var i := Find(t.symbols, o.symbol);
    Totals(t.gross + Abs(o.notional), t.net + o.notional,
           t.venues[o.venue := t.venues[o.venue] + Abs(o.notional)],
           AddSymbol(t.symbols, i, o.symbol, o.notional), t.log + [i], t.exhausted)
  }

  // ---------------------------------------------------------------- what every commit keeps

  function Sum(xs: seq<real>): real {
    if xs == [] then 0.0 else xs[0] + Sum(xs[1..])
  }

  function GrossSum(symbols: seq<SymbolTotal>): real {
    if symbols == [] then 0.0 else symbols[0].gross + GrossSum(symbols[1..])
  }

  function NetSum(symbols: seq<SymbolTotal>): real {
    if symbols == [] then 0.0 else symbols[0].net + NetSum(symbols[1..])
  }

  lemma {:induction false} SumUpdate(xs: seq<real>, i: nat, d: real)
    requires i < |xs|
    ensures Sum(xs[i := xs[i] + d]) == Sum(xs) + d
    decreases |xs|
  {
    var ys := xs[i := xs[i] + d];
    if i == 0 {
      assert ys[1..] == xs[1..];
    } else {
      SumUpdate(xs[1..], i - 1, d);
      assert ys[1..] == xs[1..][i - 1 := xs[1..][i - 1] + d];
    }
  }

  lemma {:induction false} AddSymbolSums(symbols: seq<SymbolTotal>, i: nat, symbol: string, notional: real)
    requires i <= |symbols|
    ensures var r := AddSymbol(symbols, i, symbol, notional);
            GrossSum(r) == GrossSum(symbols) + Abs(notional) && NetSum(r) == NetSum(symbols) + notional
    decreases |symbols|
  {
    var r := AddSymbol(symbols, i, symbol, notional);
    if i > 0 {
      AddSymbolSums(symbols[1..], i - 1, symbol, notional);
      assert r[1..] == AddSymbol(symbols[1..], i - 1, symbol, notional);
    } else if symbols != [] {
      assert r[1..] == symbols[1..];
    } else {
      assert r[1..] == [];
    }
  }

  /** The totals agree: gross is the sum over venues and over symbols, net the sum over symbols. */
  ghost predicate Balanced(t: Totals) {
    && |t.venues| == NUM_VENUES && |t.symbols| <= MAX_SYMBOLS
    && t.gross == Sum(t.venues) == GrossSum(t.symbols) && t.net == NetSum(t.symbols)
    && t.gross >= 0.0
  }

  ghost predicate WithinCaps(cfg: Limits, t: Totals) {
    && !Exceeds(cfg.maxGross, t.gross) && !Exceeds(cfg.maxNet, Abs(t.net))
    && forall v :: 0 <= v < |t.venues| ==> !Exceeds(cfg.maxVenue, t.venues[v])
  }

  /** Every entry was opened by a commit, in order, and only the entries were committed to. */
  ghost predicate LogOk(t: Totals) {
    && (forall j :: 0 <= j < |t.log| ==> t.log[j] < |t.symbols|)
    && (forall i :: 0 <= i < |t.symbols| ==> t.symbols[i].gross > 0.0)
    && (|t.symbols| <= 1 ==> forall j :: 0 <= j < |t.log| ==> t.log[j] == 0)
  }

  /** No commit to entry 0 came after a commit to another entry. */
  ghost predicate FirstNotTouchedSince(log: seq<nat>) {
    forall j, k :: 0 <= j < k < |log| && log[j] != 0 ==> log[k] != 0
  }

  ghost predicate CommittedOnce(log: seq<nat>, i: nat) {
    forall j, k :: 0 <= j < |log| && 0 <= k < |log| && log[j] == i && log[k] == i ==> j == k
  }

  /** An entry over the concentration cap is the first one, untouched since a second appeared. */
  ghost predicate ConcentrationOk(cfg: Limits, t: Totals) {
    cfg.maxConcentration > 0.0 ==> SharesOk(cfg.maxConcentration, t.symbols, t.gross, t.log)
  }

  ghost predicate SharesOk(cap: real, symbols: seq<SymbolTotal>, gross: real, log: seq<nat>) {
    forall i :: 0 <= i < |symbols| && symbols[i].gross > cap * gross ==> i == 0 && FirstNotTouchedSince(log)
  }

  /** An entry over the cross-venue cap has been committed to exactly once. */
  ghost predicate CrossVenueOk(cfg: Limits, t: Totals) {
    forall i :: 0 <= i < |t.symbols| && Exceeds(cfg.maxCrossVenueNet, Abs(t.symbols[i].net)) ==>
      CommittedOnce(t.log, i)
  }

  ghost predicate Inv(cfg: Limits, t: Totals) {
    Balanced(t) && WithinCaps(cfg, t) && LogOk(t) && ConcentrationOk(cfg, t) && CrossVenueOk(cfg, t)
  }

  lemma {:induction false} CommitKeepsBalance(cfg: Limits, t: Totals, o: Order)
    requires Balanced(t)
    ensures Balanced(Commit(cfg, t, o))
  {
    if Check(cfg, t, o) == Ok && HasRoom(t, o) {
      var i := Find(t.symbols, o.symbol);
      FindInRange(t.symbols, o.symbol);
      SumUpdate(t.venues, o.venue, Abs(o.notional));
      AddSymbolSums(t.symbols, i, o.symbol, o.notional);
    }
  }

  lemma {:induction false} CommitKeepsCaps(cfg: Limits, t: Totals, o: Order)
    requires Balanced(t) && WithinCaps(cfg, t)
    ensures WithinCaps(cfg, Commit(cfg, t, o))
  {
  }

  lemma {:induction false} CommitKeepsLog(cfg: Limits, t: Totals, o: Order)
    requires Balanced(t) && LogOk(t)
    ensures LogOk(Commit(cfg, t, o))
  {
    FindInRange(t.symbols, o.symbol);
  }

  /** A share that passed the check stays within the cap as the gross grows. */
  lemma {:induction false} ShareBound(part: real, whole: real, cap: real)
    requires whole > 0.0
    ensures part / whole > cap <==> part > cap * whole
  {
    var share := part / whole;
    assert part == share * whole;
    if share > cap { ScaleStrict(cap, share, whole); } else { Scale(share, cap, whole); }
  }

  lemma {:induction false} Scale(a: real, b: real, c: real)
    requires a <= b && c >= 0.0
    ensures a * c <= b * c
  {
  }

  lemma {:induction false} ScaleStrict(a: real, b: real, c: real)
    requires a < b && c > 0.0
    ensures a * c < b * c
  {
  }

  /** With an entry other than `i` in the table, the gross outside `i` is positive. */
  lemma {:induction false} OthersPositive(symbols: seq<SymbolTotal>, i: nat)
    requires i <= |symbols|
    requires forall j :: 0 <= j < |symbols| ==> symbols[j].gross > 0.0
    ensures GrossSum(symbols) - GrossAt(symbols, i) >= 0.0
    ensures |symbols| >= (if i < |symbols| then 2 else 1) <==> GrossSum(symbols) - GrossAt(symbols, i) > 0.0
    decreases |symbols|
  {
    if symbols != [] {
      OthersPositive(symbols[1..], if i == 0 then |symbols| - 1 else i - 1);
    }
  }

  /** An order accepted while other entries hold gross leaves its own share within the cap. */
  lemma {:induction false} AcceptedShare(cfg: Limits, t: Totals, o: Order)
    requires |t.venues| == NUM_VENUES && t.gross >= 0.0 && Check(cfg, t, o) == Ok && cfg.maxConcentration > 0.0
    requires var before := GrossAt(t.symbols, Find(t.symbols, o.symbol)); t.gross - before > 0.0
    ensures var before := GrossAt(t.symbols, Find(t.symbols, o.symbol));
            before + Abs(o.notional) <= cfg.maxConcentration * (t.gross + Abs(o.notional))
  {
    var before := GrossAt(t.symbols, Find(t.symbols, o.symbol));
    ShareBound(before + Abs(o.notional), t.gross + Abs(o.notional), cfg.maxConcentration);
  }

  ghost predicate ShareWithin(cap: real, part: real, gross: real) {
    part <= cap * gross
  }

  lemma {:induction false} ShareAfter(cfg: Limits, t: Totals, o: Order)
    requires |t.venues| == NUM_VENUES && t.gross >= 0.0 && Check(cfg, t, o) == Ok && cfg.maxConcentration > 0.0
    ensures var before := GrossAt(t.symbols, Find(t.symbols, o.symbol));
            t.gross - before > 0.0 ==>
              ShareWithin(cfg.maxConcentration, before + Abs(o.notional), t.gross + Abs(o.notional))
  {
    if t.gross - GrossAt(t.symbols, Find(t.symbols, o.symbol)) > 0.0 { AcceptedShare(cfg, t, o); }
  }

  lemma {:induction false} LogGrows(log: seq<nat>, i: nat)
    requires FirstNotTouchedSince(log) && i != 0
    ensures FirstNotTouchedSince(log + [i])
  {
  }

  lemma {:induction false} CommitKeepsConcentration(cfg: Limits, t: Totals, o: Order)
    requires Balanced(t) && LogOk(t) && ConcentrationOk(cfg, t)
    ensures ConcentrationOk(cfg, Commit(cfg, t, o))
  {
    if Check(cfg, t, o) == Ok && HasRoom(t, o) && cfg.maxConcentration > 0.0 {
      var i := Find(t.symbols, o.symbol);
      FindInRange(t.symbols, o.symbol);
      OthersPositive(t.symbols, i);
      ShareAfter(cfg, t, o);
      CommitKeepsShares(cfg.maxConcentration, t, i, o.symbol, o.notional);
    }
  }

  lemma {:induction false} CommitKeepsShares(cap: real, t: Totals, i: nat, symbol: string, notional: real)
    requires i <= |t.symbols| && cap > 0.0 && LogOk(t)
    requires |t.symbols| >= (if i < |t.symbols| then 2 else 1) ==>
               ShareWithin(cap, GrossAt(t.symbols, i) + Abs(notional), t.gross + Abs(notional))
    requires SharesOk(cap, t.symbols, t.gross, t.log)
    ensures SharesOk(cap, AddSymbol(t.symbols, i, symbol, notional), t.gross + Abs(notional), t.log + [i])
  {
    var grown := AddSymbol(t.symbols, i, symbol, notional);
    Scale(t.gross, t.gross + Abs(notional), cap);
    forall j | 0 <= j < |grown| && grown[j].gross > cap * (t.gross + Abs(notional))
      ensures j == 0 && FirstNotTouchedSince(t.log + [i])
    {
      if j == i {
        assert grown[i].gross == GrossAt(t.symbols, i) + Abs(notional);
        assert |t.symbols| <= 1 && i == 0;
      } else {
        assert grown[j] == t.symbols[j];
        if i != 0 { LogGrows(t.log, i); }
      }
    }
  }

  lemma {:induction false} CommitKeepsCrossVenue(cfg: Limits, t: Totals, o: Order)
    requires Balanced(t) && LogOk(t) && CrossVenueOk(cfg, t)
    ensures CrossVenueOk(cfg, Commit(cfg, t, o))
  {
    if Check(cfg, t, o) == Ok && HasRoom(t, o) {
      var i := Find(t.symbols, o.symbol);
      FindInRange(t.symbols, o.symbol);
      var r := Commit(cfg, t, o);
      forall j | 0 <= j < |r.symbols| && Exceeds(cfg.maxCrossVenueNet, Abs(r.symbols[j].net))
        ensures CommittedOnce(r.log, j)
      {
        if j == i {
          assert i == |t.symbols|;
        } else {
          assert r.symbols[j] == t.symbols[j] && CommittedOnce(t.log, j);
        }
      }
    }
  }

  lemma {:induction false} CommitKeepsInv(cfg: Limits, t: Totals, o: Order)
    requires Inv(cfg, t)
    ensures Inv(cfg, Commit(cfg, t, o))
  {
    CommitKeepsBalance(cfg, t, o);
    CommitKeepsCaps(cfg, t, o);
    CommitKeepsLog(cfg, t, o);
    CommitKeepsConcentration(cfg, t, o);
    CommitKeepsCrossVenue(cfg, t, o);
  }

  function Start(): Totals {
    Totals(0.0, 0.0, [0.0, 0.0, 0.0, 0.0], [], [], false)
  }

  /** What an order must satisfy, said of the totals it would leave: every cap holds of them, its own share
      is within the concentration cap unless its entry is the only one, and its own net is within the
      cross-venue cap unless this is the entry's first order. */
  ghost predicate Admissible(cfg: Limits, t: Totals, o: Order)
    requires |t.venues| == NUM_VENUES
  {
    && o.symbol != "" && o.notional != 0.0 && o.venue < NUM_VENUES
    && var r := Moved(t, o);
       var i := Find(t.symbols, o.symbol);
       && WithinCaps(cfg, r)
       && (cfg.maxConcentration > 0.0 && |r.symbols| > 1 ==>
             ShareWithin(cfg.maxConcentration, GrossAt(r.symbols, i), r.gross))
       && (i < |t.symbols| ==> !Exceeds(cfg.maxCrossVenueNet, Abs(NetAt(r.symbols, i))))
  }

  /** The check lets an order through exactly when the totals it would leave are admissible: it refuses
      nothing that the limits allow. */
  lemma {:induction false} AcceptsExactlyAdmissible(cfg: Limits, t: Totals, o: Order)
    requires Inv(cfg, t)
    ensures Check(cfg, t, o) == Ok <==> Admissible(cfg, t, o)
  {
    if o.symbol != "" && o.notional != 0.0 && o.venue < NUM_VENUES {
      var i := Find(t.symbols, o.symbol);
      FindInRange(t.symbols, o.symbol);
      OthersPositive(t.symbols, i);
      CapsOfMoved(cfg, t, o);
      EntryVerdict(cfg, t, i, o);
    }
  }

  lemma {:induction false} CapsOfMoved(cfg: Limits, t: Totals, o: Order)
    requires |t.venues| == NUM_VENUES && o.venue < NUM_VENUES && WithinCaps(cfg, t)
    ensures WithinCaps(cfg, Moved(t, o)) <==>
            !Exceeds(cfg.maxGross, t.gross + Abs(o.notional)) && !Exceeds(cfg.maxNet, Abs(t.net + o.notional))
            && !Exceeds(cfg.maxVenue, t.venues[o.venue] + Abs(o.notional))
  {
    var r := Moved(t, o);
    assert r.venues[o.venue] == t.venues[o.venue] + Abs(o.notional);
  }

  lemma {:induction false} EntryVerdict(cfg: Limits, t: Totals, i: nat, o: Order)
    requires i == Find(t.symbols, o.symbol) && i <= |t.symbols| && o.notional != 0.0 && t.gross >= 0.0
    requires o.venue < |t.venues| && LogOk(t) && t.gross == GrossSum(t.symbols)
    requires |t.symbols| >= (if i < |t.symbols| then 2 else 1) <==> t.gross - GrossAt(t.symbols, i) > 0.0
    ensures CheckSymbol(cfg, t, i, o.notional) == Ok <==>
            var r := Moved(t, o);
            && (cfg.maxConcentration > 0.0 && |r.symbols| > 1 ==>
                  ShareWithin(cfg.maxConcentration, GrossAt(r.symbols, i), r.gross))
            && (i < |t.symbols| ==> !Exceeds(cfg.maxCrossVenueNet, Abs(NetAt(r.symbols, i))))
  {
    var before, size := GrossAt(t.symbols, i), Abs(o.notional);
    var r := Moved(t, o);
    assert |r.symbols| > 1 <==> t.gross - before > 0.0;
    assert i == |t.symbols| ==> before == 0.0;
    assert i < |t.symbols| ==> before > 0.0;
    assert GrossAt(r.symbols, i) == before + size && NetAt(r.symbols, i) == NetAt(t.symbols, i) + o.notional;
    ShareVerdict(cfg, t, i, o.notional);
  }

  lemma {:induction false} ShareVerdict(cfg: Limits, t: Totals, i: nat, notional: real)
    requires notional != 0.0 && t.gross >= 0.0
    ensures CheckSymbol(cfg, t, i, notional) == Ok <==>
            && (cfg.maxConcentration > 0.0 && t.gross - GrossAt(t.symbols, i) > 0.0 ==>
                  ShareWithin(cfg.maxConcentration, GrossAt(t.symbols, i) + Abs(notional), t.gross + Abs(notional)))
            && (GrossAt(t.symbols, i) > 0.0 ==> !Exceeds(cfg.maxCrossVenueNet, Abs(NetAt(t.symbols, i) + notional)))
  {
    ShareBound(GrossAt(t.symbols, i) + Abs(notional), t.gross + Abs(notional), cfg.maxConcentration);
  }

  // ---------------------------------------------------------------- over any run

  /** A run of commits, up to the first that finds the table full. */
  function Run(cfg: Limits, t: Totals, orders: seq<Order>): (r: Totals)
    requires |t.venues| == NUM_VENUES && t.gross >= 0.0
    decreases |orders|
  {
    if orders == [] || t.exhausted then t else Run(cfg, Commit(cfg, t, orders[0]), orders[1..])
  }

  function Names(symbols: seq<SymbolTotal>): set<string> {
    if symbols == [] then {} else {symbols[0].symbol} + Names(symbols[1..])
  }

  lemma {:induction false} NameListed(symbols: seq<SymbolTotal>, i: nat)
    requires i < |symbols|
    ensures symbols[i].symbol in Names(symbols)
  {
    if i > 0 { NameListed(symbols[1..], i - 1); }
  }

  lemma {:induction false} NameFound(symbols: seq<SymbolTotal>, symbol: string)
    ensures symbol in Names(symbols) <==> Find(symbols, symbol) < |symbols|
    decreases |symbols|
  {
    if symbols != [] { NameFound(symbols[1..], symbol); }
  }

  lemma {:induction false} AddSymbolNames(symbols: seq<SymbolTotal>, i: nat, symbol: string, notional: real)
    requires i <= |symbols|
    ensures Names(AddSymbol(symbols, i, symbol, notional)) ==
            if i == |symbols| then Names(symbols) + {Clip(symbol)} else Names(symbols)
    decreases |symbols|
  {
    var r := AddSymbol(symbols, i, symbol, notional);
    if i > 0 {
      AddSymbolNames(symbols[1..], i - 1, symbol, notional);
      assert r[1..] == AddSymbol(symbols[1..], i - 1, symbol, notional);
    } else if symbols != [] {
      assert r[1..] == symbols[1..];
    } else {
      assert r[1..] == [];
    }
  }

  lemma {:induction false} SmallerSet(a: set<string>, b: set<string>)
    requires a <= b
    ensures |a| <= |b|
    decreases |a|
  {
    if a != {} {
      var x :| x in a;
      SmallerSet(a - {x}, b - {x});
    }
  }

  /** The table lists different names of the universe. */
  ghost predicate NamedFrom(t: Totals, universe: set<string>) {
    Names(t.symbols) <= universe && |Names(t.symbols)| == |t.symbols|
  }

  /** Every order is for a symbol of the universe; the empty name is one the check refuses. */
  ghost predicate Within(orders: seq<Order>, universe: set<string>) {
    forall j :: 0 <= j < |orders| ==> orders[j].symbol in universe
  }

  /** No more names than entries, and none too long for the name field. */
  ghost predicate FitsTable(universe: set<string>) {
    |universe - {""}| <= MAX_SYMBOLS && forall s :: s in universe ==> |s| <= SYMBOL_CHARS
  }

  lemma {:induction false} CommitKeepsNames(cfg: Limits, t: Totals, o: Order, universe: set<string>)
    requires |t.venues| == NUM_VENUES && t.gross >= 0.0 && !t.exhausted
    requires NamedFrom(t, universe - {""}) && o.symbol in universe && FitsTable(universe)
    ensures !Commit(cfg, t, o).exhausted && NamedFrom(Commit(cfg, t, o), universe - {""})
  {
    if o.symbol != "" {
      var i := Find(t.symbols, o.symbol);
      FindInRange(t.symbols, o.symbol);
      NameFound(t.symbols, o.symbol);
      AddSymbolNames(t.symbols, i, o.symbol, o.notional);
      SmallerSet(Names(t.symbols), universe - {""});
      if i == |t.symbols| {
        SmallerSet(Names(t.symbols) + {o.symbol}, universe - {""});
      }
    }
  }

  /** Main result: after any sequence of commits, also one that ends with the table full, the totals agree,
      every cap holds, an entry over the concentration cap is the first ever committed and has not been
      committed again since a second one was, and an entry over the cross-venue cap has been committed
      only once. */
  lemma {:induction false} LimitsHold(cfg: Limits, orders: seq<Order>)
    ensures Inv(cfg, Run(cfg, Start(), orders))
  {
    RunKeepsInv(cfg, Start(), orders);
  }

  lemma {:induction false} RunKeepsInv(cfg: Limits, t: Totals, orders: seq<Order>)
    requires Inv(cfg, t)
    ensures Inv(cfg, Run(cfg, t, orders))
    decreases |orders|
  {
    if orders != [] && !t.exhausted {
      CommitKeepsInv(cfg, t, orders[0]);
      RunKeepsInv(cfg, Commit(cfg, t, orders[0]), orders[1..]);
    }
  }

  lemma {:induction false} RunHasRoom(cfg: Limits, t: Totals, orders: seq<Order>, universe: set<string>)
    requires FitsTable(universe) && Within(orders, universe)
    requires Inv(cfg, t) && NamedFrom(t, universe - {""}) && !t.exhausted
    ensures !Run(cfg, t, orders).exhausted
    decreases |orders|
  {
    if orders != [] {
      CommitKeepsNames(cfg, t, orders[0], universe);
      CommitKeepsInv(cfg, t, orders[0]);
      RunHasRoom(cfg, Commit(cfg, t, orders[0]), orders[1..], universe);
    }
  }

  // ---------------------------------------------------------------- runs that fill the table

  function Under(cap: real, bound: real): real {
    if cap > 0.0 then MinReal(cap, bound) else bound
  }

  /** An amount within the gross, net and venue caps that are on. */
  function Budget(cfg: Limits): (u: real)
    ensures u > 0.0 && !Exceeds(cfg.maxGross, u) && !Exceeds(cfg.maxNet, u) && !Exceeds(cfg.maxVenue, u)
  {
    Under(cfg.maxGross, Under(cfg.maxNet, Under(cfg.maxVenue, 1.0)))
  }

  /** Half of what is left of the budget, or less where the concentration share asks for it. */
  function SmallSize(cfg: Limits, gross: real): real {
    var half := (Budget(cfg) - gross) / 2.0;
    if gross > 0.0 && cfg.maxConcentration > 0.0 then MinReal(half, cfg.maxConcentration * gross) else half
  }

  /** One small order for each name, all on one venue. */
  function SmallOrders(cfg: Limits, gross: real, names: seq<string>): seq<Order>
    decreases |names|
  {
    if names == [] then []
    else
      var size := SmallSize(cfg, gross);
      [Order(0, names[0], size)] + SmallOrders(cfg, gross + size, names[1..])
  }

  lemma {:induction false} SmallOrdersNames(cfg: Limits, gross: real, names: seq<string>, universe: set<string>)
    requires forall i :: 0 <= i < |names| ==> names[i] in universe
    ensures Within(SmallOrders(cfg, gross, names), universe)
    decreases |names|
  {
    if names != [] { SmallOrdersNames(cfg, gross + SmallSize(cfg, gross), names[1..], universe); }
  }

  /** All that has been traded was bought on venue 0, within the budget. */
  ghost predicate Bought(cfg: Limits, t: Totals) {
    |t.venues| == NUM_VENUES && 0.0 <= t.gross < Budget(cfg) && t.net == t.gross == t.venues[0]
  }

  lemma {:induction false} SmallShare(cap: real, size: real, gross: real)
    requires cap > 0.0 && gross > 0.0 && 0.0 < size <= cap * gross
    ensures size / (gross + size) <= cap
  {
    ScaleStrict(0.0, cap, size);
    ShareBound(size, gross + size, cap);
  }

  lemma {:induction false} SmallSizeFits(cfg: Limits, gross: real)
    requires 0.0 <= gross < Budget(cfg)
    ensures var size := SmallSize(cfg, gross);
            && size > 0.0 && gross + size < Budget(cfg)
            && (gross > 0.0 && cfg.maxConcentration > 0.0 ==> size / (gross + size) <= cfg.maxConcentration)
  {
    if gross > 0.0 && cfg.maxConcentration > 0.0 {
      ScaleStrict(0.0, cfg.maxConcentration, gross);
      SmallShare(cfg.maxConcentration, SmallSize(cfg, gross), gross);
    }
  }

  /** A small order for a name the table does not list is accepted whatever the limits are. */
  lemma {:induction false} SmallOrderAccepted(cfg: Limits, t: Totals, name: string)
    requires Bought(cfg, t) && name != "" && Find(t.symbols, name) == |t.symbols|
    ensures var o := Order(0, name, SmallSize(cfg, t.gross));
            && Check(cfg, t, o) == Ok && Bought(cfg, Moved(t, o))
            && Moved(t, o).gross == t.gross + o.notional && Moved(t, o).exhausted == t.exhausted
            && |Moved(t, o).symbols| == |t.symbols| + 1
            && Moved(t, o).symbols[|t.symbols|].symbol == Clip(name)
            && forall k :: 0 <= k < |t.symbols| ==> Moved(t, o).symbols[k] == t.symbols[k]
  {
    SmallSizeFits(cfg, t.gross);
  }

  ghost predicate Unlisted(symbols: seq<SymbolTotal>, name: string) {
    forall k :: 0 <= k < |symbols| ==> symbols[k].symbol != name
  }

  /** Each name is new to the table, even after the entries opened for the names before it. */
  ghost predicate AllNew(symbols: seq<SymbolTotal>, names: seq<string>) {
    && (forall i :: 0 <= i < |names| ==> names[i] != "" && Unlisted(symbols, names[i]))
    && forall i, j :: 0 <= i < j < |names| ==> Clip(names[i]) != names[j]
  }

  lemma {:induction false} UnlistedNotFound(symbols: seq<SymbolTotal>, name: string)
    requires Unlisted(symbols, name)
    ensures Find(symbols, name) == |symbols|
  {
    FindInRange(symbols, name);
  }

  lemma {:induction false} NextAllNew(symbols: seq<SymbolTotal>, grown: seq<SymbolTotal>, names: seq<string>)
    requires AllNew(symbols, names) && names != [] && |grown| == |symbols| + 1
    requires grown[|symbols|].symbol == Clip(names[0]) && forall k :: 0 <= k < |symbols| ==> grown[k] == symbols[k]
    ensures AllNew(grown, names[1..])
  {
    forall i | 0 <= i < |names[1..]|
      ensures names[1..][i] != "" && Unlisted(grown, names[1..][i])
    {
      assert Unlisted(symbols, names[i + 1]) && Clip(names[0]) != names[i + 1];
    }
  }

  lemma {:induction false} SmallOrdersFill(cfg: Limits, t: Totals, names: seq<string>)
    requires Bought(cfg, t) && !t.exhausted && AllNew(t.symbols, names)
    requires |t.symbols| <= MAX_SYMBOLS && |t.symbols| + |names| == MAX_SYMBOLS + 1
    ensures Run(cfg, t, SmallOrders(cfg, t.gross, names)).exhausted
    decreases |names|
  {
    var o := Order(0, names[0], SmallSize(cfg, t.gross));
    var orders := SmallOrders(cfg, t.gross, names);
    assert orders[1..] == SmallOrders(cfg, t.gross + o.notional, names[1..]);
    assert Unlisted(t.symbols, names[0]);
    UnlistedNotFound(t.symbols, names[0]);
    SmallOrderAccepted(cfg, t, names[0]);
    if |t.symbols| < MAX_SYMBOLS {
      NextAllNew(t.symbols, Moved(t, o).symbols, names);
      SmallOrdersFill(cfg, Moved(t, o), names[1..]);
    }
  }

  function Repeated(symbol: string, n: nat): (r: seq<string>)
    ensures |r| == n && forall i :: 0 <= i < n ==> r[i] == symbol
  {
    seq(n, _ => symbol)
  }

  /** Whatever the limits, thirty-three small orders for one symbol longer than the name field fill the
      table: no scan finds the clipped name, so each order opens an entry of its own. */
  lemma {:induction false} LongSymbolFillsTable(cfg: Limits, symbol: string)
    requires |symbol| > SYMBOL_CHARS
    ensures Run(cfg, Start(), SmallOrders(cfg, 0.0, Repeated(symbol, MAX_SYMBOLS + 1))).exhausted
  {
    SmallOrdersFill(cfg, Start(), Repeated(symbol, MAX_SYMBOLS + 1));
  }

  /** `n` different members of a set that has so many. */
  lemma {:induction false} Choose(names: set<string>, n: nat) returns (chosen: seq<string>)
    requires n <= |names|
    ensures |chosen| == n && (forall i :: 0 <= i < n ==> chosen[i] in names)
    ensures forall i, j :: 0 <= i < j < n ==> chosen[i] != chosen[j]
  {
    if n == 0 {
      chosen := [];
    } else {
      var name :| name in names;
      var rest := Choose(names - {name}, n - 1);
      chosen := [name] + rest;
    }
  }

  /** A universe that does not fit the table has a run of orders that fills it, whatever the limits. */
  lemma {:induction false} MisfitFillsTable(cfg: Limits, universe: set<string>) returns (orders: seq<Order>)
    requires !FitsTable(universe)
    ensures Within(orders, universe) && Run(cfg, Start(), orders).exhausted
  {
    if symbol :| symbol in universe && |symbol| > SYMBOL_CHARS {
      var names := Repeated(symbol, MAX_SYMBOLS + 1);
      orders := SmallOrders(cfg, 0.0, names);
      LongSymbolFillsTable(cfg, symbol);
      SmallOrdersNames(cfg, 0.0, names, universe);
    } else {
      var names := Choose(universe - {""}, MAX_SYMBOLS + 1);
      orders := SmallOrders(cfg, 0.0, names);
      SmallOrdersFill(cfg, Start(), names);
      SmallOrdersNames(cfg, 0.0, names, universe);
    }
  }

  /** Main result on the table: whatever the limits, no run of orders over a universe of symbols ever needs
      a thirty-third entry exactly when its nonempty names number at most thirty-two and each has at most
      fifteen characters. */
  lemma {:induction false} NeverExhausted(cfg: Limits, universe: set<string>)
    ensures (forall orders :: Within(orders, universe) ==> !Run(cfg, Start(), orders).exhausted)
            <==> FitsTable(universe)
  {
    if FitsTable(universe) {
      forall orders | Within(orders, universe)
        ensures !Run(cfg, Start(), orders).exhausted
      {
        RunHasRoom(cfg, Start(), orders, universe);
      }
    } else {
      var orders := MisfitFillsTable(cfg, universe);
    }
  }

  // ---------------------------------------------------------------- the futures gate

  datatype SymbolLeverage = SymbolLeverage(symbol: string, maxLeverage: real)

  datatype FuturesLimits = FuturesLimits(
    enabled: bool, maxFundingBps: real, scaleStartBps: real, minScale: real, maxDivergenceBps: real,
    maxMaintenance: real, defaultLeverage: real, leverages: seq<SymbolLeverage>)

  datatype Context = Context(
    collateral: real, current: real, maintenance: real, mark: real, index: real, fundingBps: real, hours: real)

  function LeverageFor(leverages: seq<SymbolLeverage>, symbol: string, otherwise: real): real {
    if leverages == [] then otherwise
    else if leverages[0].symbol == symbol then leverages[0].maxLeverage
    else LeverageFor(leverages[1..], symbol, otherwise)
  }

  function Clamp(x: real, lo: real, hi: real): real {
    if x < lo then lo else if hi < x then hi else x
  }

  predicate ContextOk(c: Context) {
    !(c.collateral <= 0.0 || c.current < 0.0 || c.mark <= 0.0 || c.index <= 0.0 || c.maintenance < 0.0 || c.hours < 0.0)
  }

  function FundingCost(c: Context): real {
    Abs(c.fundingBps) * (c.hours / 8.0)
  }

  /** One at `t` zero, the minimum at `t` one. */
  function Falling(t: real, least: real): real {
    Clamp(1.0 - t * (1.0 - least), least, 1.0)
  }

  /** How much of an order is let through as funding gets dear. */
  function FundingScale(f: FuturesLimits, cost: real): real {
    if f.scaleStartBps > 0.0 && f.maxFundingBps > f.scaleStartBps && cost > f.scaleStartBps then
      Falling(Clamp((cost - f.scaleStartBps) / (f.maxFundingBps - f.scaleStartBps), 0.0, 1.0), f.minScale)
    else 1.0
  }

  function Gate(f: FuturesLimits, symbol: string, notional: real, c: Context): Verdict {
    if !f.enabled then Ok
    else if symbol == "" || !ContextOk(c) then InvalidInput
    else if Exceeds(f.maxMaintenance, c.maintenance) then MaintenanceCap
    else if Exceeds(f.maxDivergenceBps, Abs(c.mark - c.index) / c.index * 10000.0) then DivergenceCap
    else if Exceeds(LeverageFor(f.leverages, symbol, f.defaultLeverage), (c.current + Abs(notional)) / c.collateral)
    then LeverageCap
    else if Exceeds(f.maxFundingBps, FundingCost(c)) then FundingCap
    else Ok
  }

  /** The notional the totals are then checked with; an order the gate stops keeps its own. */
  function Scaled(f: FuturesLimits, symbol: string, notional: real, c: Context): real {
    if f.enabled && Gate(f, symbol, notional, c) == Ok then notional * FundingScale(f, FundingCost(c)) else notional
  }

  function CheckFutures(cfg: Limits, f: FuturesLimits, t: Totals, o: Order, c: Context): Verdict
    requires |t.venues| == NUM_VENUES && t.gross >= 0.0
  {
    var gate := Gate(f, o.symbol, o.notional, c);
    if gate != Ok then gate else Check(cfg, t, o.(notional := Scaled(f, o.symbol, o.notional, c)))
  }

  /** The scale is in bounds and, between the two funding levels, exactly the straight line from one down
      to the minimum: neither clamp ever acts on an order that passed the funding cap. */
  lemma {:induction false} ScaleIsLinear(f: FuturesLimits, cost: real)
    requires f.minScale <= 1.0 && !Exceeds(f.maxFundingBps, cost)
    ensures f.minScale <= FundingScale(f, cost) <= 1.0
    ensures f.scaleStartBps > 0.0 && f.maxFundingBps > f.scaleStartBps && cost > f.scaleStartBps ==>
              (1.0 - FundingScale(f, cost)) * (f.maxFundingBps - f.scaleStartBps)
              == (cost - f.scaleStartBps) * (1.0 - f.minScale)
  {
    if f.scaleStartBps > 0.0 && f.maxFundingBps > f.scaleStartBps && cost > f.scaleStartBps {
      var span := f.maxFundingBps - f.scaleStartBps;
      var x := cost - f.scaleStartBps;
      Fraction(x, span);
      FallingIsLine(x / span, f.minScale);
      Reorder(x / span, 1.0 - f.minScale, span);
    }
  }

  lemma {:induction false} FallingIsLine(q: real, least: real)
    requires 0.0 <= q <= 1.0 && least <= 1.0
    ensures Falling(q, least) == 1.0 - q * (1.0 - least) && least <= Falling(q, least) <= 1.0
  {
    Portion(q, 1.0 - least);
  }

  lemma {:induction false} Fraction(x: real, span: real)
    requires 0.0 <= x <= span && span > 0.0
    ensures 0.0 <= x / span <= 1.0 && x / span * span == x
  {
  }

  lemma {:induction false} Portion(q: real, y: real)
    requires 0.0 <= q <= 1.0 && y >= 0.0
    ensures 0.0 <= q * y <= y
  {
  }

  lemma {:induction false} Reorder(q: real, y: real, span: real)
    ensures (q * y) * span == (q * span) * y
  {
  }

  /** The position this order would make is within the symbol's leverage, if it has a limit. */
  ghost predicate LeverageWithin(f: FuturesLimits, symbol: string, size: real, c: Context) {
    var limit := LeverageFor(f.leverages, symbol, f.defaultLeverage);
    limit > 0.0 ==> c.current + size <= limit * c.collateral
  }

  lemma {:induction false} GateLeverage(f: FuturesLimits, symbol: string, notional: real, c: Context)
    requires f.enabled && Gate(f, symbol, notional, c) == Ok
    ensures LeverageWithin(f, symbol, Abs(notional), c)
  {
    ShareBound(c.current + Abs(notional), c.collateral, LeverageFor(f.leverages, symbol, f.defaultLeverage));
  }

  /** The gate passes an order exactly when, in plain terms, the context makes sense, margin and funding are
      within their caps, mark and index are within the divergence cap of each other, and the position
      the order would make is within the symbol's leverage. */
  lemma {:induction false} GateExactly(f: FuturesLimits, symbol: string, notional: real, c: Context)
    requires f.enabled
    ensures Gate(f, symbol, notional, c) == Ok <==>
            && symbol != "" && ContextOk(c) && !Exceeds(f.maxMaintenance, c.maintenance)
            && DivergenceWithin(f, c) && LeverageWithin(f, symbol, Abs(notional), c)
            && !Exceeds(f.maxFundingBps, FundingCost(c))
  {
    if ContextOk(c) {
      DivergenceBound(f, c);
      ShareBound(c.current + Abs(notional), c.collateral, LeverageFor(f.leverages, symbol, f.defaultLeverage));
    }
  }

  ghost predicate DivergenceWithin(f: FuturesLimits, c: Context) {
    f.maxDivergenceBps > 0.0 ==> Abs(c.mark - c.index) * 10000.0 <= f.maxDivergenceBps * c.index
  }

  lemma {:induction false} DivergenceBound(f: FuturesLimits, c: Context)
    requires c.index > 0.0
    ensures Exceeds(f.maxDivergenceBps, Abs(c.mark - c.index) / c.index * 10000.0) <==> !DivergenceWithin(f, c)
  {
    BpsBound(Abs(c.mark - c.index), c.index, f.maxDivergenceBps);
  }

  lemma {:induction false} BpsBound(part: real, whole: real, cap: real)
    requires whole > 0.0
    ensures part / whole * 10000.0 > cap <==> part * 10000.0 > cap * whole
  {
    var share := part / whole;
    assert share * whole == part;
    if share * 10000.0 > cap {
      ScaleStrict(cap, share * 10000.0, whole);
    } else {
      Scale(share * 10000.0, cap, whole);
    }
    Reorder(share, 10000.0, whole);
  }

  lemma {:induction false} ScaledBy(f: FuturesLimits, symbol: string, notional: real, c: Context) returns (scale: real)
    requires f.minScale <= 1.0 && f.enabled && Gate(f, symbol, notional, c) == Ok
    ensures f.minScale <= scale <= 1.0 && Scaled(f, symbol, notional, c) == notional * scale
  {
    scale := FundingScale(f, FundingCost(c));
    ScaleIsLinear(f, FundingCost(c));
  }

  lemma {:induction false} SizeOfProduct(x: real, scale: real)
    requires scale >= 0.0
    ensures Abs(x * scale) == scale * Abs(x)
    ensures x >= 0.0 ==> x * scale >= 0.0
    ensures x <= 0.0 ==> x * scale <= 0.0
  {
    if x >= 0.0 { Scale(0.0, x, scale); } else { Scale(x, 0.0, scale); }
  }

  lemma {:induction false} Flip(x: real, scale: real)
    ensures scale * -x == -(x * scale)
  {
  }

  lemma {:induction false} ScaledSize(notional: real, scale: real)
    requires -1.0 <= scale <= 1.0
    ensures Abs(notional * scale) <= Abs(notional)
  {
    if notional >= 0.0 {
      Scale(-1.0, scale, notional);
      Scale(scale, 1.0, notional);
    } else {
      Flip(notional, scale);
      Scale(-1.0, scale, -notional);
      Scale(scale, 1.0, -notional);
    }
  }

  lemma {:induction false} ScaledLeast(notional: real, scale: real, least: real)
    requires 0.0 <= least <= scale
    ensures least * Abs(notional) <= Abs(notional * scale)
    ensures (notional >= 0.0 ==> notional * scale >= 0.0) && (notional <= 0.0 ==> notional * scale <= 0.0)
  {
    SizeOfProduct(notional, scale);
    Scale(least, scale, Abs(notional));
  }

  /** An order that passes the gate goes on no larger than it was, so the projected leverage at the scaled
      size is within the symbol's limit too; and unless the minimum scale is negative, with the same sign
      and at least its minimum share. */
  lemma {:induction false} ScaledOrderIsSafe(f: FuturesLimits, symbol: string, notional: real, c: Context)
    requires -1.0 <= f.minScale <= 1.0 && f.enabled && Gate(f, symbol, notional, c) == Ok
    ensures var scaled := Scaled(f, symbol, notional, c);
            && Abs(scaled) <= Abs(notional) && LeverageWithin(f, symbol, Abs(scaled), c)
            && (f.minScale >= 0.0 ==>
                  && f.minScale * Abs(notional) <= Abs(scaled)
                  && (notional >= 0.0 ==> scaled >= 0.0) && (notional <= 0.0 ==> scaled <= 0.0))
  {
    var scale := ScaledBy(f, symbol, notional, c);
    ScaledSize(notional, scale);
    if f.minScale >= 0.0 { ScaledLeast(notional, scale, f.minScale); }
    GateLeverage(f, symbol, notional, c);
    SmallerIsWithin(f, symbol, Abs(notional * scale), Abs(notional), c);
  }

  lemma {:induction false} SmallerIsWithin(f: FuturesLimits, symbol: string, small: real, size: real, c: Context)
    requires small <= size && LeverageWithin(f, symbol, size, c)
    ensures LeverageWithin(f, symbol, small, c)
  {
  }

  // ---------------------------------------------------------------- the totals as an object

  class KillSwitch {
    var active: bool

    constructor ()
      ensures !active
    {
      active := false;
    }

    method Trigger()
      modifies this
      ensures active
    {
      active := true;
    }
  }

  class GlobalRiskControls {
    const cfg: Limits
    const futures: FuturesLimits
    const killSwitch: KillSwitch
    var gross: real
    var net: real
    var used: nat
    var exhausted: bool
    const venueGross: array<real>
    const names: array<string>
    const symbolGross: array<real>
    const symbolNet: array<real>
    ghost var log: seq<nat>

    ghost predicate Valid()
      reads this, venueGross, names, symbolGross, symbolNet
    {
      && venueGross.Length == NUM_VENUES && names.Length == symbolGross.Length == symbolNet.Length == MAX_SYMBOLS
      && venueGross != symbolGross && venueGross != symbolNet && symbolGross != symbolNet
      && used <= MAX_SYMBOLS && gross >= 0.0
      && forall i :: used <= i < MAX_SYMBOLS ==> symbolGross[i] == 0.0 && symbolNet[i] == 0.0
    }

    ghost function Entry(i: nat): SymbolTotal
      requires i < names.Length && i < symbolGross.Length && i < symbolNet.Length
      reads names, symbolGross, symbolNet
    {
      SymbolTotal(names[i], symbolGross[i], symbolNet[i])
    }

    ghost function Entries(): seq<SymbolTotal>
      reads this, venueGross, names, symbolGross, symbolNet
      requires Valid()
    {
      seq(used, i requires 0 <= i < used reads this, names, symbolGross, symbolNet, venueGross
                requires Valid() => Entry(i))
    }

    ghost function View(): Totals
      reads this, venueGross, names, symbolGross, symbolNet
      requires Valid()
    {
      Totals(gross, net, venueGross[..], Entries(), log, exhausted)
    }

    constructor (cfg: Limits, futures: FuturesLimits, killSwitch: KillSwitch)
      ensures Valid() && View() == Start() && Inv(cfg, View())
      ensures this.cfg == cfg && this.futures == futures && this.killSwitch == killSwitch
      ensures fresh(venueGross) && fresh(names) && fresh(symbolGross) && fresh(symbolNet)
    {
      this.cfg, this.futures, this.killSwitch := cfg, futures, killSwitch;
      gross, net, used, exhausted, log := 0.0, 0.0, 0, false, [];
      venueGross := new real[NUM_VENUES](_ => 0.0);
      names := new string[MAX_SYMBOLS](_ => "");
      symbolGross := new real[MAX_SYMBOLS](_ => 0.0);
      symbolNet := new real[MAX_SYMBOLS](_ => 0.0);
      new;
      assert venueGross[..] == [0.0, 0.0, 0.0, 0.0];
      assert Entries() == [];
    }

    /** Where the symbol's entry is, or `used`. */
    method FindSymbol(symbol: string) returns (i: nat)
      requires Valid()
      ensures i == Find(Entries(), symbol) && i <= used && (i < used ==> names[i] == symbol)
    {
      i := 0;
      while i < used
        invariant i <= used
        invariant forall j :: 0 <= j < i ==> Entries()[j].symbol != symbol
      {
        if names[i] == symbol {
          FindIs(Entries(), symbol, i);
          return;
        }
        i := i + 1;
      }
      FindIs(Entries(), symbol, i);
    }

    method CheckOrder(o: Order) returns (verdict: Verdict)
      requires Valid()
      ensures verdict == Check(cfg, View(), o)
    {
      if o.symbol == "" || o.notional == 0.0 { return InvalidInput; }
      var size := Abs(o.notional);
      if Exceeds(cfg.maxGross, gross + size) { return GrossCap; }
      if Exceeds(cfg.maxNet, Abs(net + o.notional)) { return NetCap; }
      if o.venue >= NUM_VENUES { return InvalidInput; }
      if Exceeds(cfg.maxVenue, venueGross[o.venue] + size) { return VenueCap; }
      verdict := CheckEntry(o.symbol, o.notional);
    }

    method CheckEntry(symbol: string, notional: real) returns (verdict: Verdict)
      requires Valid() && notional != 0.0
      ensures verdict == CheckSymbol(cfg, View(), Find(Entries(), symbol), notional)
    {
      var size := Abs(notional);
      var i := FindSymbol(symbol);
      var before := if i < used then symbolGross[i] else 0.0;
      var netAfter := (if i < used then symbolNet[i] else 0.0) + notional;
      if cfg.maxConcentration > 0.0 && gross - before > 0.0 {
        if (before + size) / (gross + size) > cfg.maxConcentration { return ConcentrationCap; }
      }
      if before > 0.0 && Exceeds(cfg.maxCrossVenueNet, Abs(netAfter)) { return CrossVenueCap; }
      return Ok;
    }

    /** Opens an entry for a symbol that has none, if the table has room. */
    method GetOrCreateSymbol(symbol: string) returns (i: nat)
      requires Valid() && !exhausted
      modifies this`used, this`exhausted, names
      ensures Valid() && i == old(Find(Entries(), symbol)) && (i < used || i == MAX_SYMBOLS)
      ensures exhausted <==> i == MAX_SYMBOLS
      ensures Entries() == if i == old(used) < MAX_SYMBOLS
                           then old(Entries()) + [SymbolTotal(Clip(symbol), 0.0, 0.0)] else old(Entries())
    {
      i := FindSymbol(symbol);
      if i == used {
        if used == MAX_SYMBOLS {
          exhausted := true;
          return;
        }
        names[i] := Clip(symbol);
        used := used + 1;
      }
    }

    method AddToEntry(i: nat, notional: real)
      requires Valid() && i < used
      modifies symbolGross, symbolNet
      ensures Valid()
      ensures Entries() == var e := old(Entries())[i];
                           old(Entries())[i := SymbolTotal(e.symbol, e.gross + Abs(notional), e.net + notional)]
    {
      symbolGross[i] := symbolGross[i] + Abs(notional);
      symbolNet[i] := symbolNet[i] + notional;
    }

    /** Checks an order again and, if it passes, moves every total it belongs to. An order that finds the
        table full is told so, without the kill switch, and moves nothing. */
    method CommitOrder(o: Order) returns (verdict: Verdict)
      requires Valid() && !exhausted
      modifies this, venueGross, names, symbolGross, symbolNet, killSwitch
      ensures Valid() && verdict == CommitVerdict(cfg, old(View()), o)
      ensures View() == Commit(cfg, old(View()), o)
      ensures killSwitch.active <==>
              old(killSwitch.active) || (cfg.killOnBreach && Check(cfg, old(View()), o) != Ok)
    {
      verdict := CheckOrder(o);
      if verdict != Ok {
        if cfg.killOnBreach { killSwitch.Trigger(); }
        return;
      }
      var moved := MoveTotals(o);
      return if moved then Ok else InvalidInput;
    }

    method MoveTotals(o: Order) returns (moved: bool)
      requires Valid() && !exhausted && o.venue < NUM_VENUES
      modifies this, venueGross, names, symbolGross, symbolNet
      ensures Valid() && moved == HasRoom(old(View()), o)
      ensures View() == if moved then Moved(old(View()), o) else old(View()).(exhausted := true)
    {
      FindInRange(Entries(), o.symbol);
      var i := GetOrCreateSymbol(o.symbol);
      if i == MAX_SYMBOLS { return false; }
      AddToVenue(o.venue, o.notional);
      AddToEntry(i, o.notional);
      assert Entries() == AddSymbol(old(Entries()), i, o.symbol, o.notional);
      log := log + [i];
      return true;
    }

    method AddToVenue(venue: nat, notional: real)
      requires Valid() && venue < NUM_VENUES
      modifies this`gross, this`net, venueGross
      ensures Valid()
      ensures View() == var t := old(View());
                        t.(gross := t.gross + Abs(notional), net := t.net + notional,
                           venues := t.venues[venue := t.venues[venue] + Abs(notional)])
    {
      gross := gross + Abs(notional);
      net := net + notional;
      venueGross[venue] := venueGross[venue] + Abs(notional);
      assert Entries() == old(Entries());
    }

    method LeverageOf(symbol: string) returns (limit: real)
      ensures limit == LeverageFor(futures.leverages, symbol, futures.defaultLeverage)
    {
      var all := futures.leverages;
      for i := 0 to |all|
        invariant LeverageFor(all, symbol, futures.defaultLeverage) ==
                  LeverageFor(all[i..], symbol, futures.defaultLeverage)
      {
        if all[i].symbol == symbol { return all[i].maxLeverage; }
        assert all[i..][1..] == all[i + 1..];
      }
      return futures.defaultLeverage;
    }

    method CheckFuturesGate(symbol: string, notional: real, c: Context) returns (verdict: Verdict, scaled: real)
      ensures verdict == Gate(futures, symbol, notional, c) && scaled == Scaled(futures, symbol, notional, c)
    {
      scaled := notional;
      if !futures.enabled { return Ok, scaled; }
      if symbol == "" || !ContextOk(c) { return InvalidInput, scaled; }
      if Exceeds(futures.maxMaintenance, c.maintenance) { return MaintenanceCap, scaled; }
      if Exceeds(futures.maxDivergenceBps, Abs(c.mark - c.index) / c.index * 10000.0) { return DivergenceCap, scaled; }
      var limit := LeverageOf(symbol);
      if Exceeds(limit, (c.current + Abs(notional)) / c.collateral) { return LeverageCap, scaled; }
      var cost := FundingCost(c);
      if Exceeds(futures.maxFundingBps, cost) { return FundingCap, scaled; }
      return Ok, notional * FundingScale(futures, cost);
    }

    /** The gate, then the check at the scaled notional, then the commit of exactly what was checked. */
    method CommitFuturesOrder(o: Order, c: Context) returns (verdict: Verdict, scaled: real)
      requires Valid() && !exhausted
      modifies this, venueGross, names, symbolGross, symbolNet, killSwitch
      ensures Valid() && scaled == Scaled(futures, o.symbol, o.notional, c)
      ensures var check := CheckFutures(cfg, futures, old(View()), o, c);
              var order := o.(notional := scaled);
              && verdict == (if check == Ok then CommitVerdict(cfg, old(View()), order) else check)
              && View() == (if check == Ok then Commit(cfg, old(View()), order) else old(View()))
              && (killSwitch.active <==> old(killSwitch.active) || (cfg.killOnBreach && check != Ok))
    {
      verdict, scaled := CheckFuturesGate(o.symbol, o.notional, c);
      if verdict == Ok { verdict := CheckOrder(o.(notional := scaled)); }
      if verdict != Ok {
        if cfg.killOnBreach { killSwitch.Trigger(); }
        return;
      }
      verdict := CommitOrder(o.(notional := scaled));
    }
  }

  lemma {:induction false} FindIs(symbols: seq<SymbolTotal>, symbol: string, i: nat)
    requires i <= |symbols| && (i < |symbols| ==> symbols[i].symbol == symbol)
    requires forall j :: 0 <= j < i ==> symbols[j].symbol != symbol
    ensures Find(symbols, symbol) == i
  {
    FindInRange(symbols, symbol);
  }
}
