/** The greedy smart order router and why greedy is optimal: a fractional knapsack over venues. */
module SmartRouter {
  import opened Common

  const INFINITE_PRICE: real := 1000000000000000000.0
  const MISSING_PRICE: real := 100000000000000000.0
  const MIN_REMAINING: real := 0.000000000001
  const MAX_CHILDREN: nat := 8

  datatype VenueQuote = VenueQuote(
    bestBid: real, bestAsk: real, depth: real, takerFeeBps: real, latencyBps: real, riskBps: real,
    fillProbability: real, adaptiveFillProbability: real, queueAhead: real, toxicityBps: real,
    takerMarkoutBps: real, qualityBps: real, healthy: bool)

  datatype Regime = Regime(fillWeight: real, queueWeight: real, toxicityWeight: real)

  /** `venue` is the index of the quote the order goes to. */
  datatype ChildOrder = ChildOrder(venue: nat, quantity: real, limitPrice: real)

  // ---------------------------------------------------------------- scores

  function QuotePrice(v: VenueQuote, side: Side): real {
    if side.Bid? then v.bestAsk else v.bestBid
  }

  function EffectivePriceBps(v: VenueQuote, side: Side): real {
    if QuotePrice(v, side) <= 0.0 then 1000000000000.0 else v.takerFeeBps + v.latencyBps + v.riskBps
  }

  function ScoreVenueBps(v: VenueQuote, side: Side, regime: Regime, minFill: real): real {
    var fill := if v.adaptiveFillProbability >= 0.0 then v.adaptiveFillProbability else v.fillProbability;
    var clipped := if fill < minFill then minFill else fill;
    EffectivePriceBps(v, side) + regime.fillWeight * (1.0 - clipped) + regime.queueWeight * v.queueAhead
    + regime.toxicityWeight * v.toxicityBps + v.takerMarkoutBps + v.qualityBps
  }

  function ExpectedShortfallBps(v: VenueQuote, side: Side, regime: Regime, bestPx: real, minFill: real): real {
    var px := QuotePrice(v, side);
    if px <= 0.0 || bestPx <= 0.0 then INFINITE_PRICE
    else
      var penalty := if side.Bid? then (px - bestPx) / bestPx * 10000.0 else (bestPx - px) / bestPx * 10000.0;
      ScoreVenueBps(v, side, regime, minFill) + penalty
  }

  predicate Quoting(v: VenueQuote, side: Side) {
    v.healthy && v.depth > 0.0 && QuotePrice(v, side) > 0.0
  }

  predicate Beats(side: Side, a: real, b: real) {
    if side.Bid? then a < b else a > b
  }

  /** The best price quoted by any healthy venue with depth, or the sentinel when there is none. */
  ghost predicate IsBestPrice(side: Side, venues: seq<VenueQuote>, px: real) {
    if forall i :: 0 <= i < |venues| ==> !Quoting(venues[i], side) then px == INFINITE_PRICE
    else
      && (exists i :: 0 <= i < |venues| && Quoting(venues[i], side) && QuotePrice(venues[i], side) == px)
      && (forall i :: 0 <= i < |venues| && Quoting(venues[i], side) ==> !Beats(side, QuotePrice(venues[i], side), px))
  }

  /** Said of the quotes themselves: the lowest positive ask, or the highest positive bid, of the healthy venues
      with depth; the marker if there is none. */
  ghost predicate IsTouch(side: Side, venues: seq<VenueQuote>, px: real) {
    if side == Bid then
      if exists i :: 0 <= i < |venues| && venues[i].healthy && venues[i].depth > 0.0 && venues[i].bestAsk > 0.0 then
        && (exists i :: 0 <= i < |venues| && venues[i].healthy && venues[i].depth > 0.0 && venues[i].bestAsk > 0.0
                        && venues[i].bestAsk == px)
        && (forall i :: 0 <= i < |venues| && venues[i].healthy && venues[i].depth > 0.0 && venues[i].bestAsk > 0.0 ==>
              px <= venues[i].bestAsk)
      else px == INFINITE_PRICE
    else
      if exists i :: 0 <= i < |venues| && venues[i].healthy && venues[i].depth > 0.0 && venues[i].bestBid > 0.0 then
        && (exists i :: 0 <= i < |venues| && venues[i].healthy && venues[i].depth > 0.0 && venues[i].bestBid > 0.0
                        && venues[i].bestBid == px)
        && (forall i :: 0 <= i < |venues| && venues[i].healthy && venues[i].depth > 0.0 && venues[i].bestBid > 0.0 ==>
              px >= venues[i].bestBid)
      else px == INFINITE_PRICE
  }

  lemma {:induction false} BestIsTouch(side: Side, venues: seq<VenueQuote>, px: real)
    ensures IsBestPrice(side, venues, px) <==> IsTouch(side, venues, px)
  {
    if side == Bid {
      assert forall i :: 0 <= i < |venues| ==>
               (Quoting(venues[i], side) <==> venues[i].healthy && venues[i].depth > 0.0 && venues[i].bestAsk > 0.0);
    } else {
      assert forall i :: 0 <= i < |venues| ==>
               (Quoting(venues[i], side) <==> venues[i].healthy && venues[i].depth > 0.0 && venues[i].bestBid > 0.0);
    }
  }

  /** Where a venue's cost differs from another's: fees, latency, risk, markout and quality count in full, the
      chance of a miss, the queue and the toxicity by their weights, and the quote by its distance in basis
      points of the best price, a dearer ask or a lower bid costing more. */
  lemma {:induction false} CostDifference(v: VenueQuote, w: VenueQuote, side: Side, regime: Regime, bestPx: real,
                                          minFill: real)
    requires bestPx > 0.0
    requires if side == Bid then v.bestAsk > 0.0 && w.bestAsk > 0.0 else v.bestBid > 0.0 && w.bestBid > 0.0
    ensures ExpectedShortfallBps(v, side, regime, bestPx, minFill) - ExpectedShortfallBps(w, side, regime, bestPx, minFill)
            == (v.takerFeeBps - w.takerFeeBps) + (v.latencyBps - w.latencyBps) + (v.riskBps - w.riskBps)
               + (v.takerMarkoutBps - w.takerMarkoutBps) + (v.qualityBps - w.qualityBps)
               + regime.fillWeight * (MissChance(v, minFill) - MissChance(w, minFill))
               + regime.queueWeight * (v.queueAhead - w.queueAhead)
               + regime.toxicityWeight * (v.toxicityBps - w.toxicityBps)
               + 10000.0 * ((if side == Bid then v.bestAsk - w.bestAsk else w.bestBid - v.bestBid) / bestPx)
  {
    Weighted(regime.fillWeight, MissChance(v, minFill), MissChance(w, minFill));
    Weighted(regime.queueWeight, v.queueAhead, w.queueAhead);
    Weighted(regime.toxicityWeight, v.toxicityBps, w.toxicityBps);
    var pv, pw := (if side == Bid then v.bestAsk else v.bestBid), (if side == Bid then w.bestAsk else w.bestBid);
    QuoteDistance(pv, pw, bestPx);
    DifferenceOf(v, w, side, regime, bestPx, minFill, pv, pw);
  }

  lemma {:induction false} DifferenceOf(v: VenueQuote, w: VenueQuote, side: Side, regime: Regime, bestPx: real,
                                        minFill: real, pv: real, pw: real)
    requires bestPx > 0.0 && pv > 0.0 && pw > 0.0
    requires if side == Bid then pv == v.bestAsk && pw == w.bestAsk else pv == v.bestBid && pw == w.bestBid
    ensures ExpectedShortfallBps(v, side, regime, bestPx, minFill) - ExpectedShortfallBps(w, side, regime, bestPx, minFill)
            == (v.takerFeeBps - w.takerFeeBps) + (v.latencyBps - w.latencyBps) + (v.riskBps - w.riskBps)
               + (v.takerMarkoutBps - w.takerMarkoutBps) + (v.qualityBps - w.qualityBps)
               + (regime.fillWeight * MissChance(v, minFill) - regime.fillWeight * MissChance(w, minFill))
               + (regime.queueWeight * v.queueAhead - regime.queueWeight * w.queueAhead)
               + (regime.toxicityWeight * v.toxicityBps - regime.toxicityWeight * w.toxicityBps)
               + if side == Bid then (pv - bestPx) / bestPx * 10000.0 - (pw - bestPx) / bestPx * 10000.0
                 else (bestPx - pv) / bestPx * 10000.0 - (bestPx - pw) / bestPx * 10000.0
  {
    ScoreTerms(v, side, regime, minFill);
    ScoreTerms(w, side, regime, minFill);
  }

  lemma {:induction false} ScoreTerms(v: VenueQuote, side: Side, regime: Regime, minFill: real)
    requires if side == Bid then v.bestAsk > 0.0 else v.bestBid > 0.0
    ensures ScoreVenueBps(v, side, regime, minFill) ==
            v.takerFeeBps + v.latencyBps + v.riskBps + v.takerMarkoutBps + v.qualityBps
            + regime.fillWeight * MissChance(v, minFill) + regime.queueWeight * v.queueAhead
            + regime.toxicityWeight * v.toxicityBps
  {
  }

  /** One less the chance of a fill, observed if there is an observation, and no lower than the floor. */
  function MissChance(v: VenueQuote, minFill: real): real {
    1.0 - MaxReal(minFill, if v.adaptiveFillProbability >= 0.0 then v.adaptiveFillProbability else v.fillProbability)
  }

  lemma {:induction false} Weighted(weight: real, a: real, b: real)
    ensures weight * a - weight * b == weight * (a - b)
  {
  }

  lemma {:induction false} QuoteDistance(pv: real, pw: real, bestPx: real)
    requires bestPx > 0.0
    ensures (pv - bestPx) / bestPx * 10000.0 - (pw - bestPx) / bestPx * 10000.0 == 10000.0 * ((pv - pw) / bestPx)
    ensures (bestPx - pv) / bestPx * 10000.0 - (bestPx - pw) / bestPx * 10000.0 == 10000.0 * ((pw - pv) / bestPx)
  {
    assert (pv - bestPx) / bestPx - (pw - bestPx) / bestPx == (pv - pw) / bestPx;
    assert (bestPx - pv) / bestPx - (bestPx - pw) / bestPx == (pw - pv) / bestPx;
  }

  /** No term of v's score is better than w's. */
  ghost predicate NoBetter(v: VenueQuote, w: VenueQuote, side: Side) {
    && QuotePrice(v, side) > 0.0 && QuotePrice(w, side) > 0.0
    && !Beats(side, QuotePrice(v, side), QuotePrice(w, side))
    && v.takerFeeBps >= w.takerFeeBps && v.latencyBps >= w.latencyBps && v.riskBps >= w.riskBps
    && FillChance(v) <= FillChance(w) && v.queueAhead >= w.queueAhead && v.toxicityBps >= w.toxicityBps
    && v.takerMarkoutBps >= w.takerMarkoutBps && v.qualityBps >= w.qualityBps
  }

  function FillChance(v: VenueQuote): real {
    if v.adaptiveFillProbability >= 0.0 then v.adaptiveFillProbability else v.fillProbability
  }

  lemma {:induction false} WeightMonotone(weight: real, a: real, b: real)
    requires weight >= 0.0 && a >= b
    ensures weight * a >= weight * b
  {
  }

  lemma {:induction false} ShareMonotone(a: real, b: real, whole: real)
    requires a >= b && whole > 0.0
    ensures a / whole * 10000.0 >= b / whole * 10000.0
  {
    assert a / whole - b / whole == (a - b) / whole;
  }

  /** Being dearer, slower, riskier, likelier to miss or more toxic never improves a venue's expected
      shortfall, for either side and any non-negative regime weights. */
  lemma {:induction false} ShortfallMonotone(v: VenueQuote, w: VenueQuote, side: Side, regime: Regime, bestPx: real,
                                             minFill: real)
    requires NoBetter(v, w, side) && bestPx > 0.0
    requires regime.fillWeight >= 0.0 && regime.queueWeight >= 0.0 && regime.toxicityWeight >= 0.0
    ensures ExpectedShortfallBps(v, side, regime, bestPx, minFill)
            >= ExpectedShortfallBps(w, side, regime, bestPx, minFill)
  {
    var pv, pw := QuotePrice(v, side), QuotePrice(w, side);
    if side.Bid? {
      ShareMonotone(pv - bestPx, pw - bestPx, bestPx);
    } else {
      ShareMonotone(bestPx - pv, bestPx - pw, bestPx);
    }
    ScoreMonotone(v, w, side, regime, minFill);
  }

  lemma {:induction false} ScoreMonotone(v: VenueQuote, w: VenueQuote, side: Side, regime: Regime, minFill: real)
    requires NoBetter(v, w, side)
    requires regime.fillWeight >= 0.0 && regime.queueWeight >= 0.0 && regime.toxicityWeight >= 0.0
    ensures ScoreVenueBps(v, side, regime, minFill) >= ScoreVenueBps(w, side, regime, minFill)
  {
    WeightMonotone(regime.fillWeight, Miss(v, minFill), Miss(w, minFill));
    WeightMonotone(regime.queueWeight, v.queueAhead, w.queueAhead);
    WeightMonotone(regime.toxicityWeight, v.toxicityBps, w.toxicityBps);
    var mv, qv, tv := regime.fillWeight * Miss(v, minFill), regime.queueWeight * v.queueAhead,
                      regime.toxicityWeight * v.toxicityBps;
    var mw, qw, tw := regime.fillWeight * Miss(w, minFill), regime.queueWeight * w.queueAhead,
                      regime.toxicityWeight * w.toxicityBps;
    ScoreIs(v, side, regime, minFill, mv, qv, tv);
    ScoreIs(w, side, regime, minFill, mw, qw, tw);
    TermsMonotone(v, w, mv, qv, tv, mw, qw, tw);
  }

  function Terms(v: VenueQuote, miss: real, queue: real, toxicity: real): real {
    v.takerFeeBps + v.latencyBps + v.riskBps + miss + queue + toxicity + v.takerMarkoutBps + v.qualityBps
  }

  lemma {:induction false} TermsMonotone(v: VenueQuote, w: VenueQuote, mv: real, qv: real, tv: real, mw: real,
                                         qw: real, tw: real)
    requires v.takerFeeBps >= w.takerFeeBps && v.latencyBps >= w.latencyBps && v.riskBps >= w.riskBps
    requires v.takerMarkoutBps >= w.takerMarkoutBps && v.qualityBps >= w.qualityBps
    requires mv >= mw && qv >= qw && tv >= tw
    ensures Terms(v, mv, qv, tv) >= Terms(w, mw, qw, tw)
  {
  }

  /** The chance that nothing fills. */
  function Miss(v: VenueQuote, minFill: real): real {
    1.0 - if FillChance(v) < minFill then minFill else FillChance(v)
  }

  lemma {:induction false} ScoreIs(v: VenueQuote, side: Side, regime: Regime, minFill: real, miss: real, queue: real,
                                   toxicity: real)
    requires QuotePrice(v, side) > 0.0 && miss == regime.fillWeight * Miss(v, minFill)
    requires queue == regime.queueWeight * v.queueAhead && toxicity == regime.toxicityWeight * v.toxicityBps
    ensures ScoreVenueBps(v, side, regime, minFill) ==
            Terms(v, miss, queue, toxicity)
  {
  }

  // ---------------------------------------------------------------- allocations

  /** A routing problem: what a unit costs at each venue, and how much each venue takes. */
  datatype Problem = Problem(costs: seq<real>, capacity: seq<real>)
  {
    ghost predicate Valid() {
      |costs| == |capacity| && forall i :: 0 <= i < |capacity| ==> capacity[i] >= 0.0
    }

    ghost predicate Feasible(x: seq<real>) {
      |x| == |capacity| && forall i :: 0 <= i < |x| && i < |capacity| ==> 0.0 <= x[i] <= capacity[i]
    }
  }

  function Total(x: seq<real>): real {
    if x == [] then 0.0 else Total(x[..|x| - 1]) + x[|x| - 1]
  }

  function Cost(x: seq<real>, costs: seq<real>): real
    requires |x| == |costs|
  {
    if x == [] then 0.0 else Cost(x[..|x| - 1], costs[..|x| - 1]) + x[|x| - 1] * costs[|x| - 1]
  }

  /** Venues cheaper than `price` are filled up, dearer ones left alone. */
  ghost predicate Threshold(p: Problem, x: seq<real>, price: real)
    requires |x| == |p.costs| == |p.capacity|
  {
    forall i :: 0 <= i < |x| ==>
      (p.costs[i] < price ==> x[i] == p.capacity[i]) && (p.costs[i] > price ==> x[i] == 0.0)
  }

  /** Moving quantity between venues against a threshold allocation never lowers the cost. */
  lemma {:induction false} ExchangeStep(g: real, x: real, cost: real, capacity: real, price: real)
    requires 0.0 <= x <= capacity
    requires (cost < price ==> g == capacity) && (cost > price ==> g == 0.0)
    ensures x * cost - g * cost >= price * (x - g)
  {
    assert x * cost - g * cost - price * (x - g) == (x - g) * (cost - price);
    if cost < price {
      assert (x - g) * (cost - price) == (g - x) * (price - cost);
    }
  }

  lemma {:induction false} ExchangeSum(price: real, costX: real, costG: real, totalX: real, totalG: real,
                                       x: real, g: real, cost: real)
    requires costX - costG >= price * (totalX - totalG)
    requires x * cost - g * cost >= price * (x - g)
    ensures (costX + x * cost) - (costG + g * cost) >= price * ((totalX + x) - (totalG + g))
  {
    var a, b := totalX - totalG, x - g;
    assert price * (a + b) == price * a + price * b;
  }

  /** Going from g to x costs at least `price` for every unit more. */
  ghost predicate Dearer(x: seq<real>, g: seq<real>, costs: seq<real>, price: real)
    requires |x| == |g| == |costs|
  {
    Cost(x, costs) - Cost(g, costs) >= price * (Total(x) - Total(g))
  }

  lemma {:induction false} ExchangeLast(costs: seq<real>, g: seq<real>, x: seq<real>, price: real, n: nat)
    requires |g| == |costs| == |x| == n + 1
    requires Dearer(x[..n], g[..n], costs[..n], price)
    requires x[n] * costs[n] - g[n] * costs[n] >= price * (x[n] - g[n])
    ensures Dearer(x, g, costs, price)
  {
    ExchangeSum(price, Cost(x[..n], costs[..n]), Cost(g[..n], costs[..n]), Total(x[..n]), Total(g[..n]),
                x[n], g[n], costs[n]);
  }

  lemma {:induction false} Exchange(p: Problem, g: seq<real>, x: seq<real>, price: real)
    requires p.Valid() && |g| == |p.costs| && p.Feasible(x) && Threshold(p, g, price)
    ensures Dearer(x, g, p.costs, price)
    decreases |g|
  {
    if g == [] {
      assert price * (Total(x) - Total(g)) == 0.0;
    } else {
      var n := |g| - 1;
      Exchange(Problem(p.costs[..n], p.capacity[..n]), g[..n], x[..n], price);
      ExchangeStep(g[n], x[n], p.costs[n], p.capacity[n], price);
      ExchangeLast(p.costs, g, x, price, n);
    }
  }

  /** No allocation of the same total within the capacities costs less. */
  ghost predicate Optimal(p: Problem, g: seq<real>)
    requires p.Valid() && |g| == |p.costs|
  {
    forall x :: p.Feasible(x) && Total(x) == Total(g) ==> Cost(x, p.costs) >= Cost(g, p.costs)
  }

  lemma {:induction false} ThresholdIsOptimal(p: Problem, g: seq<real>, price: real)
    requires p.Valid() && |g| == |p.costs| && Threshold(p, g, price)
    ensures Optimal(p, g)
  {
    forall x | p.Feasible(x) && Total(x) == Total(g)
      ensures Cost(x, p.costs) >= Cost(g, p.costs)
    {
      Exchange(p, g, x, price);
    }
  }

  lemma {:induction false} TotalUpdate(x: seq<real>, i: nat, v: real)
    requires i < |x|
    ensures Total(x[i := v]) == Total(x) - x[i] + v
  {
    var n := |x| - 1;
    if i < n {
      TotalUpdate(x[..n], i, v);
      assert x[i := v][..n] == x[..n][i := v];
    } else {
      assert x[i := v][..n] == x[..n];
    }
  }

  lemma {:induction false} TotalMonotone(x: seq<real>, y: seq<real>)
    requires |x| == |y| && forall i :: 0 <= i < |x| ==> x[i] <= y[i]
    ensures Total(x) <= Total(y)
  {
    if x != [] {
      TotalMonotone(x[..|x| - 1], y[..|y| - 1]);
    }
  }

  // ---------------------------------------------------------------- what a route is

  /** Costs and capacities of the venues; one that is unhealthy, empty or has no price takes nothing. */
  ghost function ProblemOf(venues: seq<VenueQuote>, side: Side, regime: Regime, bestPx: real, minFill: real): Problem {
    Problem(
      seq(|venues|, i requires 0 <= i < |venues| => ExpectedShortfallBps(venues[i], side, regime, bestPx, minFill)),
      seq(|venues|, i requires 0 <= i < |venues| =>
        if Eligible(venues[i], side, regime, bestPx, minFill) then venues[i].depth else 0.0))
  }

  predicate Eligible(v: VenueQuote, side: Side, regime: Regime, bestPx: real, minFill: real) {
    v.healthy && v.depth > 0.0 && ExpectedShortfallBps(v, side, regime, bestPx, minFill) < INFINITE_PRICE
  }

  /** A venue takes part exactly if it is healthy, has depth and quotes a price on the side traded against, some
      venue gives a best price, and its cost is below the marker; its part is then its whole depth. */
  lemma {:induction false} TakesPartExactly(venues: seq<VenueQuote>, side: Side, regime: Regime, bestPx: real,
                                            minFill: real, i: nat)
    requires i < |venues|
    ensures var p := ProblemOf(venues, side, regime, bestPx, minFill);
            var v := venues[i];
            p.capacity[i] ==
            if v.healthy && v.depth > 0.0 && (if side == Bid then v.bestAsk > 0.0 else v.bestBid > 0.0) && bestPx > 0.0
               && p.costs[i] < INFINITE_PRICE
            then v.depth else 0.0
  {
  }

  function Zeros(n: nat): seq<real> {
    seq(n, _ => 0.0)
  }

  /** Quantity sent to each of n venues. */
  function Allocation(children: seq<ChildOrder>, n: nat): (x: seq<real>)
    ensures |x| == n
  {
    if children == [] then Zeros(n)
    else
      var last := children[|children| - 1];
      var before := Allocation(children[..|children| - 1], n);
      if last.venue < n then before[last.venue := before[last.venue] + last.quantity] else before
  }

  lemma {:induction false} TotalZeros(n: nat)
    ensures Total(Zeros(n)) == 0.0
  {
    if n > 0 {
      TotalZeros(n - 1);
      assert Zeros(n)[..n - 1] == Zeros(n - 1);
    }
  }

  ghost predicate EachOnce(children: seq<ChildOrder>, n: nat) {
    && (forall i :: 0 <= i < |children| ==> children[i].venue < n)
    && (forall i, j :: 0 <= i < j < |children| ==> children[i].venue != children[j].venue)
  }

  ghost predicate CheapestFirst(p: Problem, children: seq<ChildOrder>)
    requires EachOnce(children, |p.costs|)
  {
    forall i, j :: 0 <= i < j < |children| ==> p.costs[children[i].venue] <= p.costs[children[j].venue]
  }


  // ---------------------------------------------------------------- the router

  method FindBestPrice(side: Side, venues: seq<VenueQuote>) returns (px: real)
    ensures IsBestPrice(side, venues, px)
  {
    var best := 0.0;
    var found := false;
    for i := 0 to |venues|
      invariant found <==> exists j :: 0 <= j < i && Quoting(venues[j], side)
      invariant found ==> exists j :: 0 <= j < i && Quoting(venues[j], side) && QuotePrice(venues[j], side) == best
      invariant found ==> forall j :: 0 <= j < i && Quoting(venues[j], side) ==>
                            !Beats(side, QuotePrice(venues[j], side), best)
    {
      var v := venues[i];
      if !v.healthy || v.depth <= 0.0 {
        continue;
      }
      var quote := QuotePrice(v, side);
      if quote <= 0.0 {
        continue;
      }
      if !found || Beats(side, quote, best) {
        best := quote;
        found := true;
      }
    }
    return if found then best else INFINITE_PRICE;
  }

  /** The unused eligible venue with the lowest score, the first such on a tie. */
  method FindBestVenue(venues: seq<VenueQuote>, used: array<bool>, side: Side, regime: Regime,
                       bestPx: real, minFill: real) returns (best: Option<nat>)
    requires used.Length == |venues|
    ensures var p := ProblemOf(venues, side, regime, bestPx, minFill);
            && (best.None? ==> Exhausted(p, used[..]))
            && (best.Some? ==> best.value < |venues| && Cheapest(p, used[..], best.value))
  {
    best := None;
    var bestScore := INFINITE_PRICE;
    for i := 0 to |venues|
      invariant best.None? ==> bestScore == INFINITE_PRICE
      invariant best.Some? ==>
                  && best.value < i && !used[best.value]
                  && Eligible(venues[best.value], side, regime, bestPx, minFill)
                  && bestScore == ExpectedShortfallBps(venues[best.value], side, regime, bestPx, minFill)
      invariant forall j :: 0 <= j < i && !used[j] && Eligible(venues[j], side, regime, bestPx, minFill) ==>
                  best.Some? && bestScore <= ExpectedShortfallBps(venues[j], side, regime, bestPx, minFill)
    {
      if used[i] || !venues[i].healthy || venues[i].depth <= 0.0 {
        continue;
      }
      var score := ExpectedShortfallBps(venues[i], side, regime, bestPx, minFill);
      if score < bestScore {
        bestScore := score;
        best := Some(i);
      }
    }
    ghost var p := ProblemOf(venues, side, regime, bestPx, minFill);
    assert forall i :: 0 <= i < |venues| && p.capacity[i] > 0.0 ==>
             Eligible(venues[i], side, regime, bestPx, minFill);
  }

  /** Every venue with capacity has been used. */
  ghost predicate Exhausted(p: Problem, used: seq<bool>)
    requires |used| == |p.capacity|
  {
    forall i :: 0 <= i < |used| ==> used[i] || p.capacity[i] == 0.0
  }

  /** The venue has capacity, is unused, and no other such venue costs less. */
  ghost predicate Cheapest(p: Problem, used: seq<bool>, venue: nat)
    requires |used| == |p.capacity| == |p.costs| && venue < |used|
  {
    && !used[venue] && p.capacity[venue] > 0.0
    && forall i :: 0 <= i < |used| && !used[i] && p.capacity[i] > 0.0 ==> p.costs[venue] <= p.costs[i]
  }

  ghost predicate Tried(children: seq<ChildOrder>, venue: nat) {
    exists k :: 0 <= k < |children| && children[k].venue == venue
  }

  function UsedCount(used: seq<bool>): nat {
    if used == [] then 0 else UsedCount(used[..|used| - 1]) + if used[|used| - 1] then 1 else 0
  }

  lemma {:induction false} UsedCountMark(used: seq<bool>, i: nat)
    requires i < |used| && !used[i]
    ensures UsedCount(used[i := true]) == UsedCount(used) + 1
  {
    var n := |used| - 1;
    if i < n {
      UsedCountMark(used[..n], i);
      assert used[i := true][..n] == used[..n][i := true];
    } else {
      assert used[i := true][..n] == used[..n];
    }
  }

  lemma {:induction false} UsedCountBounds(used: seq<bool>)
    ensures UsedCount(used) <= |used|
    ensures UsedCount(used) == |used| ==> forall i :: 0 <= i < |used| ==> used[i]
    ensures (forall i :: 0 <= i < |used| ==> !used[i]) ==> UsedCount(used) == 0
  {
    if used != [] {
      UsedCountBounds(used[..|used| - 1]);
    }
  }

  ghost predicate Marked(children: seq<ChildOrder>, used: seq<bool>) {
    && EachOnce(children, |used|) && UsedCount(used) == |children|
    && forall i :: 0 <= i < |used| ==> used[i] == Tried(children, i)
  }

  /** The venues tried are filled up, except that the last may have taken just the remainder. */
  ghost predicate FilledUp(p: Problem, g: seq<real>, used: seq<bool>, remaining: real, last: Option<nat>)
    requires |g| == |used| == |p.capacity|
  {
    && p.Feasible(g)
    && (forall i :: 0 <= i < |used| && !used[i] ==> g[i] == 0.0)
    && (forall i :: 0 <= i < |used| && used[i] && (remaining > 0.0 || last != Some(i)) ==> g[i] == p.capacity[i])
  }

  /** Nothing left over is cheaper than the last venue tried, and nothing tried is dearer. */
  ghost predicate Ranked(p: Problem, used: seq<bool>, last: Option<nat>)
    requires |used| == |p.costs| == |p.capacity|
  {
    last.Some? ==>
      && last.value < |used| && used[last.value]
      && forall i :: 0 <= i < |used| ==>
           if used[i] then p.costs[i] <= p.costs[last.value]
           else p.capacity[i] > 0.0 ==> p.costs[last.value] <= p.costs[i]
  }

  function LastVenue(children: seq<ChildOrder>): Option<nat> {
    if children == [] then None else Some(children[|children| - 1].venue)
  }

  /** What the routing loop keeps. */
  ghost predicate Progress(p: Problem, children: seq<ChildOrder>, used: seq<bool>, quantity: real, remaining: real)
    requires p.Valid() && |used| == |p.costs|
  {
    var g := Allocation(children, |used|);
    && Marked(children, used) && CheapestFirst(p, children)
    && Total(g) == quantity - remaining
    && FilledUp(p, g, used, remaining, LastVenue(children))
    && Ranked(p, used, LastVenue(children))
  }

  lemma {:induction false} OnlyZeros(x: seq<real>)
    requires forall i :: 0 <= i < |x| ==> x[i] >= 0.0
    ensures Total(x) >= 0.0 && (Total(x) == 0.0 ==> forall i :: 0 <= i < |x| ==> x[i] == 0.0)
  {
    if x != [] {
      OnlyZeros(x[..|x| - 1]);
    }
  }

  lemma {:induction false} ProgressIsOptimal(p: Problem, children: seq<ChildOrder>, used: seq<bool>,
                                             quantity: real, remaining: real)
    requires p.Valid() && |used| == |p.costs| && Progress(p, children, used, quantity, remaining)
    ensures Optimal(p, Allocation(children, |used|))
  {
    var g := Allocation(children, |used|);
    if children == [] {
      forall x | p.Feasible(x) && Total(x) == Total(g)
        ensures Cost(x, p.costs) >= Cost(g, p.costs)
      {
        TotalZeros(|used|);
        OnlyZeros(x);
        assert x == g;
      }
    } else {
      ThresholdIsOptimal(p, g, p.costs[children[|children| - 1].venue]);
    }
  }

  lemma {:induction false} MarkedStep(children: seq<ChildOrder>, used: seq<bool>, child: ChildOrder)
    requires Marked(children, used) && child.venue < |used| && !used[child.venue]
    ensures Marked(children + [child], used[child.venue := true])
  {
    var more := children + [child];
    assert more[|children|] == child;
    UsedCountMark(used, child.venue);
    forall i: nat | i < |used|
      ensures used[child.venue := true][i] == Tried(more, i)
    {
      if used[i] {
        var k :| 0 <= k < |children| && children[k].venue == i;
        assert more[k].venue == i;
      }
    }
    forall i, j | 0 <= i < j < |more|
      ensures more[i].venue != more[j].venue
    {
      assert Tried(children, more[i].venue);
    }
  }

  /** One more child, to the cheapest unused venue. */
  lemma {:induction false} ProgressStep(p: Problem, children: seq<ChildOrder>, used: seq<bool>, quantity: real,
                                        remaining: real, child: ChildOrder)
    requires p.Valid() && |used| == |p.costs| && Progress(p, children, used, quantity, remaining)
    requires remaining > 0.0 && child.venue < |used| && Cheapest(p, used, child.venue)
    requires child.quantity == MinReal(remaining, p.capacity[child.venue])
    ensures Progress(p, children + [child], used[child.venue := true], quantity, remaining - child.quantity)
  {
    var g := Allocation(children, |used|);
    MarkedStep(children, used, child);
    CheapestStep(p, children, used, child);
    AllocationStep(children, |used|, child);
    TotalUpdate(g, child.venue, child.quantity);
    FilledStep(p, g, used, remaining, LastVenue(children), child);
  }

  lemma {:induction false} FilledStep(p: Problem, g: seq<real>, used: seq<bool>, remaining: real, last: Option<nat>,
                                      child: ChildOrder)
    requires |g| == |used| == |p.capacity| && FilledUp(p, g, used, remaining, last) && remaining > 0.0
    requires child.venue < |used| && !used[child.venue] && p.capacity[child.venue] > 0.0
    requires child.quantity == MinReal(remaining, p.capacity[child.venue])
    ensures FilledUp(p, g[child.venue := child.quantity], used[child.venue := true], remaining - child.quantity,
                     Some(child.venue))
  {
  }

  lemma {:induction false} AllocationStep(children: seq<ChildOrder>, n: nat, child: ChildOrder)
    requires child.venue < n && Allocation(children, n)[child.venue] == 0.0
    ensures Allocation(children + [child], n) == Allocation(children, n)[child.venue := child.quantity]
    ensures LastVenue(children + [child]) == Some(child.venue)
  {
    assert (children + [child])[..|children|] == children;
  }

  lemma {:induction false} CheapestStep(p: Problem, children: seq<ChildOrder>, used: seq<bool>, child: ChildOrder)
    requires |used| == |p.costs| == |p.capacity| && Marked(children, used) && CheapestFirst(p, children)
    requires Ranked(p, used, LastVenue(children))
    requires child.venue < |used| && Cheapest(p, used, child.venue)
    ensures EachOnce(children + [child], |used|) && CheapestFirst(p, children + [child])
    ensures Ranked(p, used[child.venue := true], Some(child.venue))
  {
    MarkedStep(children, used, child);
    var more := children + [child];
    forall i, j | 0 <= i < j < |more|
      ensures p.costs[more[i].venue] <= p.costs[more[j].venue]
    {
      assert Tried(children, more[i].venue);
    }
    assert used[child.venue := true][child.venue];
    if children != [] {
      assert Tried(children, children[|children| - 1].venue);
    }
  }

  /** How far the routed total can be from the smaller of what was asked and what is on offer. */
  lemma {:induction false} RoutedTotal(p: Problem, children: seq<ChildOrder>, used: seq<bool>,
                                       quantity: real, remaining: real)
    requires p.Valid() && |used| == |p.costs| && Progress(p, children, used, quantity, remaining)
    requires remaining >= 0.0
    requires remaining > MIN_REMAINING ==> Exhausted(p, used)
    ensures var routed := Total(Allocation(children, |used|));
            routed <= MinReal(quantity, Total(p.capacity)) <= routed + MIN_REMAINING
  {
    var g := Allocation(children, |used|);
    TotalMonotone(g, p.capacity);
    if remaining > MIN_REMAINING {
      assert g == p.capacity;
    }
  }

  // ---------------------------------------------------------------- routing

  ghost predicate Sane(side: Side, venues: seq<VenueQuote>) {
    forall i :: 0 <= i < |venues| ==> QuotePrice(venues[i], side) < MISSING_PRICE
  }

  /** Sends to the cheapest venue first until the quantity is placed. Each venue is used at most once,
      children come in nondecreasing expected shortfall and carry the venue's own quote, no allocation of
      the same total over the same depths has a lower total shortfall, and as long as prices stay below
      the sentinel for a missing price the total is the smaller of the quantity and the eligible depth, to
      within the smallest remainder. The source has four venues; the proof needs no more of them than
      there is room for children. */
  method Route(side: Side, quantity: real, venues: seq<VenueQuote>, regime: Regime, minFill: real)
      returns (children: seq<ChildOrder>, bestPx: real)
    requires |venues| <= MAX_CHILDREN
    ensures IsTouch(side, venues, bestPx)
    ensures var p := ProblemOf(venues, side, regime, bestPx, minFill);
            var g := Allocation(children, |venues|);
            && EachOnce(children, |venues|) && CheapestFirst(p, children)
            && p.Valid() && p.Feasible(g) && Optimal(p, g)
            && OwnQuotes(children, venues, side)
            && (quantity >= 0.0 && Sane(side, venues) ==>
                  Total(g) <= MinReal(quantity, Total(p.capacity)) <= Total(g) + MIN_REMAINING)
  {
    bestPx := FindBestPrice(side, venues);
    BestIsTouch(side, venues, bestPx);
    ghost var p := ProblemOf(venues, side, regime, bestPx, minFill);
    if bestPx >= MISSING_PRICE {
      children := [];
      NothingPlaced(p, quantity);
      ProgressIsOptimal(p, [], Unused(|venues|), quantity, quantity);
      if quantity >= 0.0 && Sane(side, venues) {
        assert p.capacity == Zeros(|venues|);
        TotalZeros(|venues|);
      }
      return;
    }
    ghost var used: seq<bool>;
    ghost var remaining: real;
    children, used, remaining := PlaceChildren(side, quantity, venues, regime, bestPx, minFill, p);
    ProgressIsOptimal(p, children, used, quantity, remaining);
    if quantity >= 0.0 {
      RoutedTotal(p, children, used, quantity, remaining);
    }
  }

  ghost function Unused(n: nat): seq<bool> {
    seq(n, _ => false)
  }

  lemma {:induction false} NothingMarked(n: nat)
    ensures Marked([], Unused(n))
  {
    UsedCountBounds(Unused(n));
  }

  lemma {:induction false} NothingFilled(p: Problem, remaining: real)
    requires p.Valid()
    ensures FilledUp(p, Zeros(|p.costs|), Unused(|p.costs|), remaining, None)
  {
  }

  lemma {:induction false} NothingPlaced(p: Problem, quantity: real)
    requires p.Valid()
    ensures Progress(p, [], Unused(|p.costs|), quantity, quantity)
  {
    NothingMarked(|p.costs|);
    NothingFilled(p, quantity);
    TotalZeros(|p.costs|);
  }

  /** Sends the winner what it can take of the remainder and marks it used. */
  method AppendChildOrder(side: Side, winner: VenueQuote, children: seq<ChildOrder>, remaining: real,
                          used: array<bool>, best: nat, ghost quantity: real, ghost p: Problem)
      returns (more: seq<ChildOrder>, left: real)
    requires p.Valid() && used.Length == |p.costs| && remaining > 0.0
    requires Progress(p, children, used[..], quantity, remaining)
    requires best < used.Length && Cheapest(p, used[..], best) && p.capacity[best] == winner.depth
    modifies used
    ensures Progress(p, more, used[..], quantity, left) && left >= 0.0
    ensures exists child :: more == children + [child] && child.venue == best
              && child.limitPrice == (if side == Bid then winner.bestAsk else winner.bestBid)
  {
    var clip := if remaining < winner.depth then remaining else winner.depth;
    var child := ChildOrder(best, clip, QuotePrice(winner, side));
    ProgressStep(p, children, used[..], quantity, remaining, child);
    ghost var marked := used[..][best := true];
    more := children + [child];
    left := remaining - clip;
    used[best] := true;
    assert used[..] == marked;
  }

  /** A buy goes to a healthy venue with depth at that venue's own ask, a sale at its own bid. */
  ghost predicate SentTo(child: ChildOrder, v: VenueQuote, side: Side) {
    v.healthy && v.depth > 0.0 && child.limitPrice > 0.0 && child.limitPrice == if side == Bid then v.bestAsk else v.bestBid
  }

  ghost predicate OwnQuotes(children: seq<ChildOrder>, venues: seq<VenueQuote>, side: Side) {
    forall k :: 0 <= k < |children| ==> children[k].venue < |venues| && SentTo(children[k], venues[children[k].venue], side)
  }

  /** A venue that wins has depth and a price of its own. */
  lemma {:induction false} WinnerQuotes(venues: seq<VenueQuote>, side: Side, regime: Regime, bestPx: real, minFill: real,
                                        used: seq<bool>, best: nat)
    requires |used| == |venues| && best < |venues|
    requires Cheapest(ProblemOf(venues, side, regime, bestPx, minFill), used, best)
    ensures var v := venues[best];
            v.healthy && v.depth > 0.0 && (if side == Bid then v.bestAsk > 0.0 else v.bestBid > 0.0)
    ensures ProblemOf(venues, side, regime, bestPx, minFill).capacity[best] == venues[best].depth
  {
    assert Eligible(venues[best], side, regime, bestPx, minFill);
  }

  lemma {:induction false} OneMoreOwn(children: seq<ChildOrder>, child: ChildOrder, venues: seq<VenueQuote>, side: Side)
    requires OwnQuotes(children, venues, side) && child.venue < |venues| && SentTo(child, venues[child.venue], side)
    ensures OwnQuotes(children + [child], venues, side)
  {
  }

  /** Once there are as many children as venues, every venue has been used. */
  lemma {:induction false} AllTried(p: Problem, children: seq<ChildOrder>, used: seq<bool>,
                                    quantity: real, remaining: real)
    requires p.Valid() && |used| == |p.costs| <= |children|
    requires Progress(p, children, used, quantity, remaining)
    ensures Exhausted(p, used)
  {
    UsedCountBounds(used);
  }

  /** One turn of the routing loop, `done` when no venue is left. */
  method TryNext(side: Side, venues: seq<VenueQuote>, regime: Regime, bestPx: real, minFill: real,
                 children: seq<ChildOrder>, remaining: real, used: array<bool>, ghost quantity: real, ghost p: Problem)
      returns (more: seq<ChildOrder>, left: real, done: bool)
    requires p == ProblemOf(venues, side, regime, bestPx, minFill) && used.Length == |venues| && remaining > 0.0
    requires Progress(p, children, used[..], quantity, remaining) && OwnQuotes(children, venues, side)
    modifies used
    ensures Progress(p, more, used[..], quantity, left) && OwnQuotes(more, venues, side)
    ensures if done then more == children && left == remaining && Exhausted(p, used[..])
            else |more| == |children| + 1 && left >= 0.0
  {
    var best := FindBestVenue(venues, used, side, regime, bestPx, minFill);
    if best.None? {
      return children, remaining, true;
    }
    WinnerQuotes(venues, side, regime, bestPx, minFill, used[..], best.value);
    more, left := AppendChildOrder(side, venues[best.value], children, remaining, used, best.value, quantity, p);
    OneMoreOwn(children, more[|children|], venues, side);
    done := false;
  }

  /** The routing loop. */
  method PlaceChildren(side: Side, quantity: real, venues: seq<VenueQuote>, regime: Regime, bestPx: real,
                       minFill: real, ghost p: Problem)
      returns (children: seq<ChildOrder>, ghost used: seq<bool>, ghost left: real)
    requires |venues| <= MAX_CHILDREN && p == ProblemOf(venues, side, regime, bestPx, minFill)
    ensures |used| == |venues| && Progress(p, children, used, quantity, left)
    ensures OwnQuotes(children, venues, side)
    ensures quantity >= 0.0 ==> left >= 0.0
    ensures left > MIN_REMAINING ==> Exhausted(p, used)
  {
    children := [];
    var tried := new bool[|venues|](_ => false);
    var remaining := quantity;
    NothingPlaced(p, quantity);
    assert tried[..] == Unused(|venues|);
    var done := false;
    while !done && remaining > MIN_REMAINING && |children| < MAX_CHILDREN
      invariant Progress(p, children, tried[..], quantity, remaining) && OwnQuotes(children, venues, side)
      invariant quantity >= 0.0 ==> remaining >= 0.0
      invariant done ==> Exhausted(p, tried[..])
      decreases if done then 0 else 1, MAX_CHILDREN - |children|
    {
      children, remaining, done :=
        TryNext(side, venues, regime, bestPx, minFill, children, remaining, tried, quantity, p);
    }
    if |children| >= MAX_CHILDREN {
      AllTried(p, children, tried[..], quantity, remaining);
    }
    return children, tried[..], remaining;
  }
}
