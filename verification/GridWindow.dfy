/** When the grid's window moves and when it stays, told from the cells, the base and the deltas alone; and
    where a snapshot puts it. */
module GridWindow {
  import opened Common
  import opened MarketData
  import opened PriceGrid

  // ---------------------------------------------------------------- one delta

  /** A level of the delta's side, at a positive price, is better than the delta's price. For asks the book
      takes a lowest ask at or below zero for an empty side. */
  ghost predicate Beaten(v: BookView, d: Delta) {
    if d.side == Bid then exists p :: p in v.bids && p > d.price && p > 0
    else (exists p :: p in v.asks && p < d.price) && (forall p :: p in v.asks ==> p > 0)
  }

  /** How many ticks the price lies outside the window. */
  function TicksOut(v: BookView, price: int): int {
    if price < v.base then v.base - price
    else if price >= v.base + v.active then price - v.base - v.active + 1
    else 0
  }

  /** The delta is well formed, not older than the book, and the book is ready. */
  predicate Taken(v: BookView, d: Delta) {
    v.initialized && d.size >= 0.0 && (d.sequence == 0 || d.sequence >= v.sequence)
  }

  /** A delta that is not taken changes nothing at all; only a stale one is reported as a success. */
  lemma {:induction false} NotTaken(v: BookView, d: Delta)
    requires !Taken(v, d)
    ensures ApplyDeltaTo(v, d).0 == v
    ensures ApplyDeltaTo(v, d).1 == Success <==> v.initialized && d.size >= 0.0
  {
  }

  lemma {:induction false} BeatenIffNoTouch(v: BookView, d: Delta)
    ensures Beaten(v, d) <==> !ImprovesTouch(v, d)
  {
  }

  /** Main result on one delta: the window moves exactly if the price is outside it, no better level of its
      side is shown, and the price is at least six tenths of a window out or completes a streak of four. */
  lemma {:induction false} BaseMovesExactly(v: BookView, d: Delta)
    requires Wf(v) && Taken(v, d)
    ensures ApplyDeltaTo(v, d).0.base != v.base <==>
            TicksOut(v, d.price) > 0 && !Beaten(v, d) && (10 * TicksOut(v, d.price) >= 6 * v.active || v.streak == 3)
  {
    BeatenIffNoTouch(v, d);
  }

  /** Nothing on display has changed: window, levels and so the best quotes. */
  ghost predicate SameDisplay(v: BookView, w: BookView) {
    w.base == v.base && w.active == v.active && w.bids == v.bids && w.asks == v.asks && w.initialized == v.initialized
  }

  /** While a better level of its side is shown, a delta outside the window is dropped: every level, the base
      and the best quotes stay, only the sequence number moves, and the streak starts over. */
  lemma {:induction false} PassiveIsDropped(v: BookView, d: Delta)
    requires Wf(v) && Taken(v, d) && TicksOut(v, d.price) > 0 && Beaten(v, d)
    ensures var w := ApplyDeltaTo(v, d).0;
            && SameDisplay(v, w) && w.streak == 0
            && w.sequence == (if d.sequence > 0 then d.sequence else v.sequence)
            && (forall key: Key :: w.Displayed(key) == v.Displayed(key))
            && (forall side, price :: IsBest(w, side, price) <==> IsBest(v, side, price))
  {
    BeatenIffNoTouch(v, d);
  }

  /** Outside and unbeaten, but neither far enough nor the fourth in a row: dropped too, and counted. */
  lemma {:induction false} BreachIsCounted(v: BookView, d: Delta)
    requires Wf(v) && Taken(v, d) && TicksOut(v, d.price) > 0 && !Beaten(v, d)
    requires ApplyDeltaTo(v, d).0.base == v.base
    ensures var w := ApplyDeltaTo(v, d).0;
            && SameDisplay(v, w) && w.streak == v.streak + 1
            && w.sequence == (if d.sequence > 0 then d.sequence else v.sequence)
  {
    BeatenIffNoTouch(v, d);
  }

  /** A delta inside the window sets its own cell and no other and ends the streak; one that moves the window
      is then in its middle cell, and ends the streak as well. */
  lemma {:induction false} LandsInWindow(v: BookView, d: Delta)
    requires Wf(v) && Taken(v, d) && (TicksOut(v, d.price) == 0 || ApplyDeltaTo(v, d).0.base != v.base)
    ensures var w := ApplyDeltaTo(v, d).0;
            && w.streak == 0 && TicksOut(w, d.price) == 0
            && (TicksOut(v, d.price) == 0 ==> w.base == v.base)
            && (TicksOut(v, d.price) > 0 ==> w.base + w.active / 2 == d.price)
            && w.Displayed(Key(d.side, d.price)) == d.size
            && forall key: Key :: key != Key(d.side, d.price) && TicksOut(w, key.price) == 0 ==>
                 w.Displayed(key) == v.Displayed(key)
  {
    BeatenIffNoTouch(v, d);
    forall key: Key | key != Key(d.side, d.price) && TicksOut(ApplyDeltaTo(v, d).0, key.price) == 0
      ensures ApplyDeltaTo(v, d).0.Displayed(key) == v.Displayed(key)
    {
      assert key.side == d.side ==> key.price != d.price;
    }
  }

  // ---------------------------------------------------------------- the streak over a run

  ghost function ApplyAll(v: BookView, ds: seq<Delta>): BookView
    decreases |ds|
  {
    if ds == [] then v else ApplyDeltaTo(ApplyAll(v, ds[..|ds| - 1]), ds[|ds| - 1]).0
  }

  ghost predicate AllTaken(v: BookView, ds: seq<Delta>) {
    forall i :: 0 <= i < |ds| ==> Taken(ApplyAll(v, ds[..i]), ds[i])
  }

  /** Delta `i` came from outside the window, no better level of its side shown, and the window stayed. */
  ghost predicate Breached(v: BookView, ds: seq<Delta>, i: nat)
    requires i < |ds|
  {
    var before := ApplyAll(v, ds[..i]);
    TicksOut(before, ds[i].price) > 0 && !Beaten(before, ds[i]) && ApplyAll(v, ds[..i + 1]).base == before.base
  }

  ghost predicate AllBreached(v: BookView, ds: seq<Delta>, from: nat) {
    forall i: nat :: from <= i < |ds| ==> Breached(v, ds, i)
  }

  lemma {:induction false} ApplyAllWf(v: BookView, ds: seq<Delta>)
    requires Wf(v)
    ensures Wf(ApplyAll(v, ds))
    decreases |ds|
  {
    if ds != [] {
      ApplyAllWf(v, ds[..|ds| - 1]);
      DeltaKeepsWf(ApplyAll(v, ds[..|ds| - 1]), ds[|ds| - 1]);
    }
  }

  lemma {:induction false} BreachedPrefix(v: BookView, ds: seq<Delta>, n: nat, i: nat)
    requires i < n <= |ds|
    ensures Breached(v, ds[..n], i) <==> Breached(v, ds, i)
  {
    assert ds[..n][..i] == ds[..i] && ds[..n][..i + 1] == ds[..i + 1];
  }

  /** After the last delta: what the streak then is. */
  lemma {:induction false} LastStreak(v: BookView, ds: seq<Delta>)
    requires Wf(v) && ds != [] && AllTaken(v, ds)
    ensures var n := |ds| - 1;
            ApplyAll(v, ds).streak == if Breached(v, ds, n) then ApplyAll(v, ds[..n]).streak + 1 else 0
  {
    var n := |ds| - 1;
    var before := ApplyAll(v, ds[..n]);
    ApplyAllWf(v, ds[..n]);
    assert Taken(before, ds[n]) && ds[..n + 1] == ds;
    if Breached(v, ds, n) {
      BreachIsCounted(before, ds[n]);
    } else if TicksOut(before, ds[n].price) == 0 || ApplyDeltaTo(before, ds[n]).0.base != before.base {
      LandsInWindow(before, ds[n]);
    } else {
      PassiveIsDropped(before, ds[n]);
    }
  }

  /** The last `k` deltas breached, and the one before them did not. */
  ghost predicate EndsWithBreaches(v: BookView, ds: seq<Delta>, k: nat) {
    k <= |ds| && AllBreached(v, ds, |ds| - k) && (k < |ds| ==> !Breached(v, ds, |ds| - k - 1))
  }

  lemma {:induction false} OneMore(v: BookView, ds: seq<Delta>, k: nat)
    requires ds != [] && EndsWithBreaches(v, ds[..|ds| - 1], k)
    ensures EndsWithBreaches(v, ds, if Breached(v, ds, |ds| - 1) then k + 1 else 0)
  {
    var n := |ds| - 1;
    forall i: nat | n - k <= i < n
      ensures Breached(v, ds, i)
    {
      BreachedPrefix(v, ds, n, i);
    }
    if k < n { BreachedPrefix(v, ds, n, n - k - 1); }
  }

  lemma {:induction false} TakenPrefix(v: BookView, ds: seq<Delta>, n: nat)
    requires AllTaken(v, ds) && n <= |ds|
    ensures AllTaken(v, ds[..n])
  {
    forall i | 0 <= i < n
      ensures Taken(ApplyAll(v, ds[..n][..i]), ds[..n][i])
    {
      assert ds[..n][..i] == ds[..i] && Taken(ApplyAll(v, ds[..i]), ds[i]);
    }
  }

  /** The streak counts exactly the breaching deltas at the end of the run. */
  lemma {:induction false} StreakIsRun(v: BookView, ds: seq<Delta>)
    requires Wf(v) && v.streak == 0 && AllTaken(v, ds)
    ensures EndsWithBreaches(v, ds, ApplyAll(v, ds).streak)
    decreases |ds|
  {
    if ds != [] {
      var n := |ds| - 1;
      TakenPrefix(v, ds, n);
      StreakIsRun(v, ds[..n]);
      LastStreak(v, ds);
      OneMore(v, ds, ApplyAll(v, ds[..n]).streak);
    }
  }

  /** Main result over runs: from a fresh window, the next delta moves it exactly if its price is outside, no
      better level of its side is shown, and it is six tenths of a window out or the three deltas just before
      it breached as well. */
  lemma {:induction false} WindowMovesExactly(v: BookView, ds: seq<Delta>, d: Delta)
    requires Wf(v) && v.streak == 0 && AllTaken(v, ds) && Taken(ApplyAll(v, ds), d)
    ensures var u := ApplyAll(v, ds);
            ApplyDeltaTo(u, d).0.base != u.base <==>
              && TicksOut(u, d.price) > 0 && !Beaten(u, d)
              && (10 * TicksOut(u, d.price) >= 6 * u.active || (|ds| >= 3 && AllBreached(v, ds, |ds| - 3)))
  {
    var u := ApplyAll(v, ds);
    ApplyAllWf(v, ds);
    StreakIsRun(v, ds);
    BaseMovesExactly(u, d);
  }

  // ---------------------------------------------------------------- where a snapshot puts the window

  /** The window chosen around a best bid: it starts at a positive price, holds the bid, uses at least 1024
      cells where there are as many, reaches down to the first tick whenever the grid is large enough for the
      prices up to twice the bid, and otherwise uses the whole grid with the bid in the middle. */
  lemma {:induction false} WindowAround(maxLevels: nat, bid: int)
    requires maxLevels >= 2 && bid >= 1
    ensures var active := ActiveLevels(maxLevels, bid);
            var base := BasePrice(bid, active);
            && Min(maxLevels, 1024) <= active <= maxLevels && 1 <= base <= bid < base + active
            && (2 * (bid - 1) <= maxLevels ==> base == 1)
            && (2 * (bid - 1) > maxLevels ==>
                  active == maxLevels && base == (if bid > maxLevels / 2 then bid - maxLevels / 2 else 1))
  {
  }

  /** The early checks, in the snapshot's own terms: each side lists something, the ask is above the bid by at
      most a quarter of the window, but for one tick, and the checksum, if it has one, matches. */
  lemma {:induction false} PrecheckExactly(maxLevels: nat, s: Snapshot)
    ensures Precheck(maxLevels, s) == Success <==>
            && |s.bids| > 0 && |s.asks| > 0
            && s.bids[0].price < s.asks[0].price
            && (4 * (s.asks[0].price - s.bids[0].price) <= ActiveLevels(maxLevels, s.bids[0].price)
                || s.asks[0].price == s.bids[0].price + 1)
            && (s.checksum == None || s.checksum == Some(s.localChecksum))
  {
  }

  ghost function IndicesOutside(levels: seq<PriceLevel>, base: int, active: nat): set<nat> {
    set i: nat | i < |levels| && (levels[i].price < base || levels[i].price >= base + active)
  }

  lemma {:induction false} OutsideCounts(levels: seq<PriceLevel>, base: int, active: nat)
    ensures Outside(levels, base, active) == |IndicesOutside(levels, base, active)|
    decreases |levels|
  {
    if levels != [] {
      var n: nat := |levels| - 1;
      var before := IndicesOutside(levels[..n], base, active);
      OutsideCounts(levels[..n], base, active);
      if levels[n].price < base || levels[n].price >= base + active {
        assert IndicesOutside(levels, base, active) == before + {n};
      } else {
        assert IndicesOutside(levels, base, active) == before;
      }
    }
  }

  /** The book says it is ready after a snapshot that passes the early checks exactly if at most half of the
      snapshot's levels lie outside the window chosen around its best bid. */
  lemma {:induction false} ReadyExactly(v: BookView, s: Snapshot)
    requires Precheck(v.maxLevels, s) == Success
    ensures var (w, outcome) := ApplySnapshotTo(v, s);
            var out := |IndicesOutside(s.bids, w.base, w.active)| + |IndicesOutside(s.asks, w.base, w.active)|;
            && w.sequence == s.sequence && w.streak == 0
            && w.active == ActiveLevels(v.maxLevels, s.bids[0].price) && w.base == BasePrice(s.bids[0].price, w.active)
            && (w.initialized <==> 2 * out <= |s.bids| + |s.asks|)
            && outcome == if w.initialized then Success else BookCorrupted
  {
    var w := Loaded(v, s);
    OutsideCounts(s.bids, w.base, w.active);
    OutsideCounts(s.asks, w.base, w.active);
  }
}
