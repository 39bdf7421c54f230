/** The price-grid order book: a fixed array window over integer price ticks standing in for a sparse
    map from prices to sizes. `BookView` is the map, with the window it covers; the functions over it
    say what each operation does to the map; the class does it on the arrays. */
module PriceGrid {
  import opened Common
  import opened MarketData

  const MIN_ACTIVE_LEVELS: nat := 1024
  const RECENTER_STREAK: nat := 4

  datatype Cell = Cell(size: real, count: nat)

  type Cells = map<int, Cell>

  datatype BookView = BookView(
    maxLevels: nat, active: nat, base: int, sequence: UInt64, initialized: bool, streak: nat,
    bids: Cells, asks: Cells)
  {
    function Cells(side: Side): Cells {
      if side.Bid? then bids else asks
    }

    predicate InWindow(price: int) {
      base <= price < base + active
    }

    /** Size displayed for a level: 0 when the grid shows nothing there. */
    function Displayed(key: Key): real {
      if key.price in Cells(key.side) then Cells(key.side)[key.price].size else 0.0
    }
  }

  // ---------------------------------------------------------------- the window of a snapshot

  function ActiveLevels(maxLevels: nat, bestBid: int): nat {
    if bestBid <= 2 then Min(maxLevels, MIN_ACTIVE_LEVELS)
    else Max(2, Min(maxLevels, Max(MIN_ACTIVE_LEVELS, Min(maxLevels, (bestBid - 1) * 2))))
  }

  function BasePrice(bestBid: int, active: nat): int {
    if bestBid - active / 2 > 0 then bestBid - active / 2 else 1
  }

  /** The window chosen for a snapshot fits the arrays exactly when there are at least two cells, or
      the bid is so low that a one-cell grid is asked for. */
  lemma {:induction false} ActiveLevelsFit(maxLevels: nat, bestBid: int)
    ensures ActiveLevels(maxLevels, bestBid) <= maxLevels <==> maxLevels >= 2 || bestBid <= 2
  {
  }

  // ---------------------------------------------------------------- operations on the map

  function Put(cells: Cells, price: int, size: real, count: nat): Cells {
    if size > 0.0 then cells[price := Cell(size, count)] else cells - {price}
  }

  function PutLevels(cells: Cells, levels: seq<PriceLevel>, base: int, active: nat): Cells
    decreases |levels|
  {
    if levels == [] then cells
    else
      var level := levels[|levels| - 1];
      var before := PutLevels(cells, levels[..|levels| - 1], base, active);
      if base <= level.price < base + active then Put(before, level.price, level.size, level.count) else before
  }

  function Outside(levels: seq<PriceLevel>, base: int, active: nat): nat {
    if levels == [] then 0
    else
      Outside(levels[..|levels| - 1], base, active)
      + if base <= levels[|levels| - 1].price < base + active then 0 else 1
  }

  /** What apply_snapshot checks before it touches the book. */
  function Precheck(maxLevels: nat, s: Snapshot): Outcome {
    if s.bids == [] || s.asks == [] then InvalidPrice
    else
      var spread := s.asks[0].price - s.bids[0].price;
      if spread <= 0 then InvalidPrice
      else if 4 * spread > Max(4, ActiveLevels(maxLevels, s.bids[0].price)) then InvalidPrice
      else if !s.ChecksumMatches() then BookCorrupted
      else Success
  }

  function Loaded(v: BookView, s: Snapshot): BookView
    requires s.bids != []
  {
    var active := ActiveLevels(v.maxLevels, s.bids[0].price);
    var base := BasePrice(s.bids[0].price, active);
    BookView(v.maxLevels, active, base, s.sequence, true, 0,
             PutLevels(map[], s.bids, base, active), PutLevels(map[], s.asks, base, active))
  }

  function MostlyOutside(v: BookView, s: Snapshot): bool {
    2 * (Outside(s.bids, v.base, v.active) + Outside(s.asks, v.base, v.active)) > |s.bids| + |s.asks|
  }

  function ApplySnapshotTo(v: BookView, s: Snapshot): (BookView, Outcome) {
    var check := Precheck(v.maxLevels, s);
    if check != Success then (v, check)
    else
      var loaded := Loaded(v, s);
      if MostlyOutside(loaded, s) then (loaded.(initialized := false), BookCorrupted) else (loaded, Success)
  }

  /** Price ticks between a price and the nearest edge of the window. */
  function Breach(v: BookView, price: int): int {
    if price < v.base then v.base - price
    else if price > v.base + v.active - 1 then price - (v.base + v.active - 1)
    else 0
  }

  /** The delta is at or beyond the best price shown on its side. The source returns price 0 for an
      empty side and so takes any best price of zero or less for an empty side too. */
  ghost predicate ImprovesTouch(v: BookView, d: Delta) {
    if d.side.Bid? then
      (forall p :: p in v.bids ==> p <= 0) || (forall p :: p in v.bids ==> p <= d.price)
    else
      v.asks == map[] || (exists p :: p in v.asks && p <= 0) || (forall p :: p in v.asks ==> d.price <= p)
  }

  /** Whether to recenter, and the streak of out-of-window improvements counted so far. */
  ghost function RecenterDecision(v: BookView, d: Delta): (bool, nat) {
    if !ImprovesTouch(v, d) || Breach(v, d.price) <= 0 then (false, 0)
    else (5 * Breach(v, d.price) >= 3 * v.active || v.streak + 1 >= RECENTER_STREAK, v.streak + 1)
  }

  function Restrict(cells: Cells, base: int, active: nat): Cells {
    map p | p in cells && base <= p < base + active :: cells[p]
  }

  /** Centre the window on a price and forget what falls outside; what stays keeps its price. */
  function Recentered(v: BookView, anchor: int): BookView {
    var base := anchor - v.active / 2;
    v.(base := base, streak := 0,
       bids := Restrict(v.bids, base, v.active), asks := Restrict(v.asks, base, v.active))
  }

  function Stamp(v: BookView, d: Delta): BookView {
    if d.sequence > 0 then v.(sequence := d.sequence) else v
  }

  function PutDelta(v: BookView, d: Delta): BookView {
    var w := v.(streak := 0);
    if d.side.Bid? then w.(bids := Put(w.bids, d.price, d.size, d.count))
    else w.(asks := Put(w.asks, d.price, d.size, d.count))
  }

  ghost function ApplyDeltaTo(v: BookView, d: Delta): (BookView, Outcome) {
    if !v.initialized then (v, BookCorrupted)
    else if d.size < 0.0 then (v, InvalidSize)
    else if d.sequence > 0 && d.sequence < v.sequence then (v, Success)
    else (Place(v, d), Success)
  }

  /** Where a delta that is neither stale nor malformed goes. */
  ghost function Place(v: BookView, d: Delta): BookView {
    if v.InWindow(d.price) then Stamp(PutDelta(v, d), d)
    else
      var (recenter, streak) := RecenterDecision(v, d);
      if recenter then Stamp(PutDelta(Recentered(v, d.price), d), d)
      else Stamp(v.(streak := streak), d)
  }

  // ---------------------------------------------------------------- what the book always satisfies

  ghost predicate Wf(v: BookView) {
    && 2 <= v.active <= v.maxLevels
    && v.streak < RECENTER_STREAK
    && CellsWf(v.bids, v.base, v.active)
    && CellsWf(v.asks, v.base, v.active)
  }

  ghost predicate CellsWf(cells: Cells, base: int, active: nat) {
    forall p :: p in cells ==> base <= p < base + active && cells[p].size > 0.0
  }

  function Empty(maxLevels: nat): BookView {
    BookView(maxLevels, maxLevels, 0, 0, false, 0, map[], map[])
  }

  lemma {:induction false} PutLevelsSizes(levels: seq<PriceLevel>, base: int, active: nat)
    ensures forall p :: p in PutLevels(map[], levels, base, active) ==>
              base <= p < base + active && PutLevels(map[], levels, base, active)[p].size > 0.0
  {
    if levels != [] {
      PutLevelsSizes(levels[..|levels| - 1], base, active);
    }
  }

  lemma {:induction false} SnapshotKeepsWf(v: BookView, s: Snapshot)
    requires Wf(v)
    ensures Wf(ApplySnapshotTo(v, s).0)
  {
    if Precheck(v.maxLevels, s) == Success {
      var w := Loaded(v, s);
      ActiveLevelsFit(v.maxLevels, s.bids[0].price);
      PutLevelsSizes(s.bids, w.base, w.active);
      PutLevelsSizes(s.asks, w.base, w.active);
    }
  }

  lemma {:induction false} PutKeepsWf(v: BookView, d: Delta)
    requires Wf(v) && v.InWindow(d.price)
    ensures Wf(PutDelta(v, d))
  {
  }

  lemma {:induction false} RecenterKeepsWf(v: BookView, anchor: int)
    requires Wf(v)
    ensures Wf(Recentered(v, anchor)) && Recentered(v, anchor).InWindow(anchor)
  {
  }

  lemma {:induction false} DeltaKeepsWf(v: BookView, d: Delta)
    requires Wf(v)
    ensures Wf(ApplyDeltaTo(v, d).0)
  {
    if v.InWindow(d.price) {
      PutKeepsWf(v, d);
    } else {
      RecenterKeepsWf(v, d.price);
      PutKeepsWf(Recentered(v, d.price), d);
    }
  }

  /** A recentred delta lands half-way up the new window, so the out-of-grid error after recentering
      cannot happen, and every level still inside keeps its price and size. */
  lemma {:induction false} RecenterKeepsLevels(v: BookView, anchor: int)
    requires Wf(v)
    ensures Recentered(v, anchor).InWindow(anchor)
    ensures forall side, p :: p in v.Cells(side) && Recentered(v, anchor).InWindow(p) ==>
              p in Recentered(v, anchor).Cells(side) && Recentered(v, anchor).Cells(side)[p] == v.Cells(side)[p]
    ensures forall side, p :: p in Recentered(v, anchor).Cells(side) ==> p in v.Cells(side)
  {
  }

  /** A delta at or beyond the touch and outside the window. */
  ghost predicate Breaching(v: BookView, d: Delta) {
    ImprovesTouch(v, d) && Breach(v, d.price) > 0
  }

  /** Applied one after the other, one of the deltas finds the window moved to its price. */
  ghost predicate CaughtUp(v: BookView, ds: seq<Delta>)
    decreases |ds|
  {
    ds != [] &&
    (var w := ApplyDeltaTo(v, ds[0]).0; w.InWindow(ds[0].price) || CaughtUp(w, ds[1..]))
  }

  predicate FreshFrom(sequence: UInt64, ds: seq<Delta>)
    decreases |ds|
  {
    ds == [] ||
    (ds[0].size >= 0.0 && (ds[0].sequence == 0 || ds[0].sequence >= sequence)
     && FreshFrom(if ds[0].sequence > 0 then ds[0].sequence else sequence, ds[1..]))
  }

  /** A market that has left the window is followed: however small each breach, at the latest the delta
      that completes a streak of breaching ones moves the window. */
  lemma {:induction false} FollowedWithinStreak(v: BookView, ds: seq<Delta>)
    requires Wf(v) && v.initialized && |ds| == RECENTER_STREAK - v.streak && FreshFrom(v.sequence, ds)
    requires forall i :: 0 <= i < |ds| ==> Breaching(v, ds[i])
    ensures CaughtUp(v, ds)
    decreases |ds|
  {
    var w := ApplyDeltaTo(v, ds[0]).0;
    assert Breaching(v, ds[0]);
    if !w.InWindow(ds[0].price) {
      assert w == Stamp(v.(streak := v.streak + 1), ds[0]);
      forall i | 0 <= i < |ds[1..]|
        ensures Breaching(w, ds[1..][i])
      {
        assert Breaching(v, ds[i + 1]);
      }
      FollowedWithinStreak(w, ds[1..]);
    }
  }

  // ---------------------------------------------------------------- agreement with what was sent

  /** The book together with whether the last snapshot was accepted and the prices [lo, hi) that have
      been inside the window ever since. */
  datatype Tracked = Tracked(book: BookView, accepted: bool, lo: int, hi: int)

  ghost function Consume(t: Tracked, call: Callback): Tracked {
    match call
    case OnSnapshot(s) =>
      var (book, outcome) := ApplySnapshotTo(t.book, s);
      Tracked(book, outcome == Success, book.base, book.base + book.active)
    case OnDelta(d) =>
      var book := ApplyDeltaTo(t.book, d).0;
      Tracked(book, t.accepted, Max(t.lo, book.base), Min(t.hi, book.base + book.active))
  }

  ghost function ConsumeAll(maxLevels: nat, calls: seq<Callback>): Tracked
    decreases |calls|
  {
    if calls == [] then Tracked(Empty(maxLevels), false, 0, 0)
    else Consume(ConsumeAll(maxLevels, calls[..|calls| - 1]), calls[|calls| - 1])
  }

  /** Sequence number of the newest call. */
  function Newest(calls: seq<Callback>): UInt64 {
    if calls == [] then 0
    else
      match calls[|calls| - 1]
      case OnSnapshot(s) => s.sequence
      case OnDelta(d) => d.sequence
  }

  /** Since the last snapshot the deltas never step back in sequence and carry no negative size. */
  predicate InOrder(calls: seq<Callback>) {
    calls == [] ||
    match calls[|calls| - 1]
    case OnSnapshot(_) => true
    case OnDelta(d) =>
      d.size >= 0.0 && d.sequence >= Newest(calls[..|calls| - 1]) && InOrder(calls[..|calls| - 1])
  }

  function Positive(size: real): real {
    if size > 0.0 then size else 0.0
  }

  ghost predicate Agrees(t: Tracked, calls: seq<Callback>) {
    && t.book.initialized && t.book.sequence == Newest(calls)
    && t.book.base <= t.lo && t.hi <= t.book.base + t.book.active
    && (forall key: Key :: t.book.Displayed(key) != 0.0 ==> t.book.Displayed(key) == Shown(calls, key))
    && (forall key: Key :: t.lo <= key.price < t.hi ==> t.book.Displayed(key) == Positive(Shown(calls, key)))
  }

  lemma {:induction false} PutLevelsIsListed(levels: seq<PriceLevel>, base: int, active: nat, price: int)
    requires base <= price < base + active
    ensures var cells := PutLevels(map[], levels, base, active);
            (if price in cells then cells[price].size else 0.0) == Positive(ListedSize(levels, price))
  {
    if levels != [] {
      PutLevelsIsListed(levels[..|levels| - 1], base, active, price);
    }
  }

  lemma {:induction false} SnapshotAgrees(t: Tracked, calls: seq<Callback>, s: Snapshot)
    requires Wf(t.book) && ApplySnapshotTo(t.book, s).1 == Success
    ensures Agrees(Consume(t, OnSnapshot(s)), calls + [OnSnapshot(s)])
  {
    var book := Loaded(t.book, s);
    PutLevelsSizes(s.bids, book.base, book.active);
    PutLevelsSizes(s.asks, book.base, book.active);
    forall key: Key | book.InWindow(key.price)
      ensures book.Displayed(key) == Positive(Shown(calls + [OnSnapshot(s)], key))
    {
      PutLevelsIsListed(s.Levels(key.side), book.base, book.active, key.price);
      ShownAppend(calls, OnSnapshot(s), key);
    }
    assert forall key: Key :: book.Displayed(key) != 0.0 ==> book.InWindow(key.price);
  }

  lemma {:induction false} DeltaDisplays(v: BookView, d: Delta, key: Key)
    requires Wf(v) && v.initialized && d.size >= 0.0 && d.sequence >= v.sequence
    ensures var w := ApplyDeltaTo(v, d).0;
            w.Displayed(key) ==
              if !w.InWindow(key.price) then 0.0
              else if key == Key(d.side, d.price) then d.size
              else v.Displayed(key)
  {
    assert !v.InWindow(key.price) ==> v.Displayed(key) == 0.0;
  }

  lemma {:induction false} DeltaAgrees(t: Tracked, calls: seq<Callback>, d: Delta)
    requires Wf(t.book) && Agrees(t, calls) && d.size >= 0.0 && d.sequence >= Newest(calls)
    ensures Agrees(Consume(t, OnDelta(d)), calls + [OnDelta(d)])
  {
    var u := Consume(t, OnDelta(d));
    forall key: Key
      ensures u.book.Displayed(key) != 0.0 ==> u.book.Displayed(key) == Shown(calls + [OnDelta(d)], key)
      ensures u.lo <= key.price < u.hi ==> u.book.Displayed(key) == Positive(Shown(calls + [OnDelta(d)], key))
    {
      DeltaDisplays(t.book, d, key);
      ShownAppend(calls, OnDelta(d), key);
    }
  }

  /** Main result on the grid: over any sequence of calls, once the last snapshot has been accepted and
      as long as the deltas after it come in order, the grid shows no stale and no phantom level, and at
      every price that has stayed inside the window since the snapshot it shows exactly what was last
      sent -- whatever recentering happened in between. */
  lemma {:induction false} NoStaleLevel(maxLevels: nat, calls: seq<Callback>)
    requires maxLevels >= 2 && InOrder(calls)
    ensures Wf(ConsumeAll(maxLevels, calls).book)
    ensures ConsumeAll(maxLevels, calls).accepted ==> Agrees(ConsumeAll(maxLevels, calls), calls)
    decreases |calls|
  {
    if calls != [] {
      var init, call := calls[..|calls| - 1], calls[|calls| - 1];
      assert calls == init + [call];
      match call {
        case OnSnapshot(s) =>
          ConsumeAllWf(maxLevels, init);
          SnapshotKeepsWf(ConsumeAll(maxLevels, init).book, s);
          if ConsumeAll(maxLevels, calls).accepted {
            SnapshotAgrees(ConsumeAll(maxLevels, init), init, s);
          }
        case OnDelta(d) =>
          NoStaleLevel(maxLevels, init);
          DeltaKeepsWf(ConsumeAll(maxLevels, init).book, d);
          if ConsumeAll(maxLevels, calls).accepted {
            DeltaAgrees(ConsumeAll(maxLevels, init), init, d);
          }
      }
    }
  }

  lemma {:induction false} ConsumeAllWf(maxLevels: nat, calls: seq<Callback>)
    requires maxLevels >= 2
    ensures Wf(ConsumeAll(maxLevels, calls).book)
    decreases |calls|
  {
    if calls != [] {
      ConsumeAllWf(maxLevels, calls[..|calls| - 1]);
      var v := ConsumeAll(maxLevels, calls[..|calls| - 1]).book;
      match calls[|calls| - 1]
      case OnSnapshot(s) => SnapshotKeepsWf(v, s);
      case OnDelta(d) => DeltaKeepsWf(v, d);
    }
  }

  // ---------------------------------------------------------------- snapshots that are turned away

  /** If the book is ready after the snapshot, every level it shows has the size the snapshot lists. */
  ghost predicate Refreshed(v: BookView, s: Snapshot) {
    var w := ApplySnapshotTo(v, s).0;
    w.initialized ==>
      forall key: Key :: w.Displayed(key) != 0.0 ==> w.Displayed(key) == ListedSize(s.Levels(key.side), key.price)
  }

  /** The book a reader sees after these calls. */
  ghost function BookAfter(maxLevels: nat, calls: seq<Callback>): BookView {
    ConsumeAll(maxLevels, calls).book
  }

  lemma {:induction false} CapacityKept(maxLevels: nat, calls: seq<Callback>)
    ensures BookAfter(maxLevels, calls).maxLevels == maxLevels
    decreases |calls|
  {
    if calls != [] { CapacityKept(maxLevels, calls[..|calls| - 1]); }
  }

  lemma {:induction false} PassedRefreshes(v: BookView, s: Snapshot)
    requires Wf(v) && Precheck(v.maxLevels, s) == Success
    ensures Refreshed(v, s)
  {
    if ApplySnapshotTo(v, s).1 == Success {
      SnapshotAgrees(Tracked(v, false, 0, 0), [], s);
      forall key: Key
        ensures Shown([OnSnapshot(s)], key) == ListedSize(s.Levels(key.side), key.price)
      {
        ShownAppend([], OnSnapshot(s), key);
      }
      assert [] + [OnSnapshot(s)] == [OnSnapshot(s)];
    }
  }

  /** A two-level book of one bid at tick 1 and one ask at tick 2. */
  function TwoLevels(size: real): Snapshot {
    Snapshot(0, [PriceLevel(1, size, 0)], [PriceLevel(2, size, 0)], None, 0)
  }

  lemma {:induction false} TwoLevelsShown(maxLevels: nat, size: real)
    requires maxLevels >= 2 && size > 0.0
    ensures var v := BookAfter(maxLevels, [OnSnapshot(TwoLevels(size))]);
            v.initialized && v.maxLevels == maxLevels && v.Displayed(Key(Bid, 1)) == size
  {
    var s := TwoLevels(size);
    var active := ActiveLevels(maxLevels, 1);
    assert [OnSnapshot(s)][..0] == [];
    assert BookAfter(maxLevels, []) == Empty(maxLevels);
    OneLevel(s.bids, 1, active);
    OneLevel(s.asks, 1, active);
    assert BookAfter(maxLevels, [OnSnapshot(s)]) == ApplySnapshotTo(Empty(maxLevels), s).0;
  }

  lemma {:induction false} OneLevel(levels: seq<PriceLevel>, base: int, active: nat)
    requires |levels| == 1 && base <= levels[0].price < base + active && levels[0].size > 0.0
    ensures Outside(levels, base, active) == 0
    ensures PutLevels(map[], levels, base, active) == map[levels[0].price := Cell(levels[0].size, levels[0].count)]
  {
    assert levels[..0] == [];
  }

  /** A snapshot clears out stale levels after any calls whatever exactly when it passes the checks made
      before the book is touched: one turned away by them can leave old levels on display. */
  lemma {:induction false} RefreshedIff(maxLevels: nat, s: Snapshot)
    requires maxLevels >= 2
    ensures Precheck(maxLevels, s) == Success <==>
            forall calls: seq<Callback> :: Refreshed(BookAfter(maxLevels, calls), s)
  {
    if Precheck(maxLevels, s) == Success {
      forall calls: seq<Callback>
        ensures Refreshed(BookAfter(maxLevels, calls), s)
      {
        ConsumeAllWf(maxLevels, calls);
        CapacityKept(maxLevels, calls);
        PassedRefreshes(BookAfter(maxLevels, calls), s);
      }
    } else {
      var listed := ListedSize(s.bids, 1);
      var size := if listed > 0.0 then listed + 1.0 else 1.0;
      var calls := [OnSnapshot(TwoLevels(size))];
      TwoLevelsShown(maxLevels, size);
      assert !Refreshed(BookAfter(maxLevels, calls), s);
    }
  }

  // ---------------------------------------------------------------- which snapshots are accepted

  /** The snapshot passes the early checks and most of its levels fall into the window it gets. */
  predicate Acceptable(maxLevels: nat, s: Snapshot) {
    Precheck(maxLevels, s) == Success &&
    (var active := ActiveLevels(maxLevels, s.bids[0].price);
     var base := BasePrice(s.bids[0].price, active);
     2 * (Outside(s.bids, base, active) + Outside(s.asks, base, active)) <= |s.bids| + |s.asks|)
  }

  function LatestSnapshot(calls: seq<Callback>): Option<Snapshot> {
    if calls == [] then None
    else
      match calls[|calls| - 1]
      case OnSnapshot(s) => Some(s)
      case OnDelta(_) => LatestSnapshot(calls[..|calls| - 1])
  }

  /** Whether the book accepted the latest snapshot can be told from that snapshot alone. */
  lemma {:induction false} AcceptedIffAcceptable(maxLevels: nat, calls: seq<Callback>)
    ensures ConsumeAll(maxLevels, calls).accepted <==>
            LatestSnapshot(calls).Some? && Acceptable(maxLevels, LatestSnapshot(calls).value)
    decreases |calls|
  {
    if calls != [] {
      AcceptedIffAcceptable(maxLevels, calls[..|calls| - 1]);
      CapacityKept(maxLevels, calls[..|calls| - 1]);
    }
  }

  /** A burst of one sequence number after calls in order is in order. */
  lemma {:induction false} BurstInOrder(calls: seq<Callback>, burst: seq<Callback>, sequence: UInt64)
    requires InOrder(calls) && Newest(calls) <= sequence
    requires forall i :: 0 <= i < |burst| ==>
               burst[i].OnDelta? && burst[i].delta.size >= 0.0 && burst[i].delta.sequence == sequence
    ensures InOrder(calls + burst) && Newest(calls + burst) <= sequence
    decreases |burst|
  {
    if burst == [] {
      assert calls + burst == calls;
    } else {
      var init := burst[..|burst| - 1];
      BurstInOrder(calls, init, sequence);
      assert (calls + burst)[..|calls + burst| - 1] == calls + init;
    }
  }

  /** The screen against the exchange: every level shown has its size at update `n`, and no level is missing
      at any price that has stayed inside the window since the latest snapshot. */
  ghost predicate TrueScreen(log: Log, t: Tracked, n: nat) {
    && t.book.initialized && n <= |log|
    && (forall key: Key :: t.book.Displayed(key) != 0.0 ==> t.book.Displayed(key) == SizeAt(log, n, key))
    && (forall key: Key :: t.lo <= key.price < t.hi ==> t.book.Displayed(key) == SizeAt(log, n, key))
  }

  /** A grid fed in order by a feed whose calls fold to the exchange's book shows that book, once it has
      taken the latest snapshot. */
  lemma {:induction false} BelievedIsShown(log: Log, n: nat, maxLevels: nat, calls: seq<Callback>)
    requires maxLevels >= 2 && ValidLog(log) && n <= |log| && InOrder(calls)
    requires forall key :: Shown(calls, key) == SizeAt(log, n, key)
    requires LatestSnapshot(calls).Some? && Acceptable(maxLevels, LatestSnapshot(calls).value)
    ensures TrueScreen(log, ConsumeAll(maxLevels, calls), n)
  {
    var t := ConsumeAll(maxLevels, calls);
    AcceptedIffAcceptable(maxLevels, calls);
    NoStaleLevel(maxLevels, calls);
    forall key: Key
      ensures t.book.Displayed(key) != 0.0 ==> t.book.Displayed(key) == SizeAt(log, n, key)
      ensures t.lo <= key.price < t.hi ==> t.book.Displayed(key) == SizeAt(log, n, key)
    {
      SizeAtNonNegative(log, n, key);
    }
  }

  /** A snapshot that fails the early checks changes nothing on display. */
  lemma {:induction false} TurnedAway(maxLevels: nat, calls: seq<Callback>, s: Snapshot)
    requires Precheck(maxLevels, s) != Success
    ensures BookAfter(maxLevels, calls + [OnSnapshot(s)]) == BookAfter(maxLevels, calls)
  {
    CapacityKept(maxLevels, calls);
    assert (calls + [OnSnapshot(s)])[..|calls|] == calls;
  }

  // ---------------------------------------------------------------- best quotes of a snapshot

  predicate SortedSnapshot(s: Snapshot) {
    && s.bids != [] && s.asks != [] && s.bids[0].price >= 1
    && (forall i, j :: 0 <= i < j < |s.bids| ==> s.bids[i].price > s.bids[j].price)
    && (forall i, j :: 0 <= i < j < |s.asks| ==> s.asks[i].price < s.asks[j].price)
    && (forall i :: 0 <= i < |s.bids| ==> s.bids[i].size > 0.0)
    && (forall i :: 0 <= i < |s.asks| ==> s.asks[i].size > 0.0)
  }

  ghost predicate IsBest(v: BookView, side: Side, price: int) {
    && price in v.Cells(side)
    && forall p :: p in v.Cells(side) ==> if side.Bid? then p <= price else price <= p
  }

  lemma {:induction false} ListedOnce(levels: seq<PriceLevel>, i: nat)
    requires i < |levels| && forall j, k :: 0 <= j < k < |levels| ==> levels[j].price != levels[k].price
    ensures ListedSize(levels, levels[i].price) == levels[i].size
  {
    if i < |levels| - 1 {
      ListedOnce(levels[..|levels| - 1], i);
    }
  }

  lemma {:induction false} NotListed(levels: seq<PriceLevel>, price: int)
    requires forall i :: 0 <= i < |levels| ==> levels[i].price != price
    ensures ListedSize(levels, price) == 0.0
  {
    if levels != [] {
      NotListed(levels[..|levels| - 1], price);
    }
  }

  lemma {:induction false} FrontIsBest(v: BookView, levels: seq<PriceLevel>, side: Side)
    requires levels != [] && v.Cells(side) == PutLevels(map[], levels, v.base, v.active)
    requires forall i, j :: 0 <= i < j < |levels| ==>
               if side.Bid? then levels[i].price > levels[j].price else levels[i].price < levels[j].price
    requires levels[0].size > 0.0
    ensures v.InWindow(levels[0].price) <==> IsBest(v, side, levels[0].price)
  {
    PutLevelsSizes(levels, v.base, v.active);
    if v.InWindow(levels[0].price) {
      PutLevelsIsListed(levels, v.base, v.active, levels[0].price);
      ListedOnce(levels, 0);
      forall p | p in v.Cells(side)
        ensures if side.Bid? then p <= levels[0].price else levels[0].price <= p
      {
        PutLevelsIsListed(levels, v.base, v.active, p);
        if forall i :: 0 <= i < |levels| ==> levels[i].price != p {
          NotListed(levels, p);
        }
      }
    }
  }

  /** After an accepted snapshot with sorted, distinct, positive levels the best bid of the grid is the
      snapshot's, and so is the best ask except in a two-cell grid whose window is not clamped at the
      bottom: there the ask side falls outside the window. */
  lemma {:induction false} SnapshotQuotes(v: BookView, s: Snapshot)
    requires Wf(v) && SortedSnapshot(s) && ApplySnapshotTo(v, s).1 == Success
    ensures var w := ApplySnapshotTo(v, s).0;
            && IsBest(w, Bid, s.bids[0].price)
            && (IsBest(w, Ask, s.asks[0].price) <==> v.maxLevels >= 3 || s.bids[0].price == 1)
            && s.bids[0].price < s.asks[0].price
  {
    var w := Loaded(v, s);
    FrontIsBest(w, s.bids, Bid);
    FrontIsBest(w, s.asks, Ask);
  }

  /** The two-cell case does occur: at any bid above one tick such a grid accepts a book one tick wide, and
      shows its bid and no ask at all. */
  lemma {:induction false} TwoCellsLoseAsk(bid: int)
    requires bid > 1
    ensures var s := Snapshot(1, [PriceLevel(bid, 1.0, 0)], [PriceLevel(bid + 1, 1.0, 0)], None, 0);
            var (w, outcome) := ApplySnapshotTo(Empty(2), s);
            SortedSnapshot(s) && outcome == Success && IsBest(w, Bid, bid) && w.asks == map[]
  {
    var bids, asks := [PriceLevel(bid, 1.0, 0)], [PriceLevel(bid + 1, 1.0, 0)];
    assert bids[..0] == [] && asks[..0] == [];
    OneLevel(bids, bid - 1, 2);
  }

  // ---------------------------------------------------------------- the grid itself

  /** The map an array window stands for. */
  ghost function CellsOf(sizes: seq<real>, counts: seq<nat>, base: int, active: nat): Cells
    requires active <= |sizes| == |counts|
  {
    map p: int | base <= p < base + active && CellAt(sizes, counts, base, p).size > 0.0 ::
      CellAt(sizes, counts, base, p)
  }

  function CellAt(sizes: seq<real>, counts: seq<nat>, base: int, price: int): Cell
    requires 0 <= price - base < |sizes| == |counts|
  {
    Cell(sizes[price - base], counts[price - base])
  }

  lemma {:induction false} CellsOfPut(sizes: seq<real>, counts: seq<nat>, base: int, active: nat,
                                      price: int, size: real, count: nat)
    requires active <= |sizes| == |counts| && base <= price < base + active
    ensures CellsOf(sizes[price - base := size], counts[price - base := count], base, active) ==
            Put(CellsOf(sizes, counts, base, active), price, size, count)
  {
  }

  ghost predicate Shifted<T>(old_: seq<T>, new_: seq<T>, active: nat, shift: int, zero: T)
    requires active <= |old_| == |new_|
  {
    forall j :: 0 <= j < active ==> new_[j] == if 0 <= j - shift < active then old_[j - shift] else zero
  }

  /** Shifting the arrays and moving the base the other way is restricting the map to the new window. */
  lemma {:induction false} ShiftIsRestrict(sizes: seq<real>, counts: seq<nat>, sizes': seq<real>, counts': seq<nat>,
                                           base: int, base': int, active: nat)
    requires active <= |sizes| == |counts| == |sizes'| == |counts'|
    requires Shifted(sizes, sizes', active, base - base', 0.0)
    requires Shifted(counts, counts', active, base - base', 0)
    ensures CellsOf(sizes', counts', base', active) == Restrict(CellsOf(sizes, counts, base, active), base', active)
  {
  }

  predicate Better(side: Side, a: int, b: int) {
    if side.Bid? then a > b else a < b
  }

  /** `levels` is the first n entries of the map, best first; shorter only when the map runs out. */
  ghost predicate IsTop(cells: Cells, side: Side, n: nat, levels: seq<PriceLevel>) {
    && |levels| <= n
    && Ranked(cells, side, levels)
    && forall p :: p in cells && !Lists(levels, p) ==>
         |levels| == n && forall i :: 0 <= i < |levels| ==> Better(side, levels[i].price, p)
  }

  ghost predicate Ranked(cells: Cells, side: Side, levels: seq<PriceLevel>) {
    && (forall i, j :: 0 <= i < j < |levels| ==> Better(side, levels[i].price, levels[j].price))
    && (forall i :: 0 <= i < |levels| ==>
          levels[i].price in cells && cells[levels[i].price] == Cell(levels[i].size, levels[i].count))
  }

  lemma {:induction false} RankedAppend(cells: Cells, side: Side, levels: seq<PriceLevel>, level: PriceLevel)
    requires Ranked(cells, side, levels)
    requires forall p :: Lists(levels, p) ==> Better(side, p, level.price)
    requires level.price in cells && cells[level.price] == Cell(level.size, level.count)
    ensures Ranked(cells, side, levels + [level])
  {
    assert forall j :: 0 <= j < |levels| ==> Lists(levels, levels[j].price);
  }

  lemma {:induction false} ListsAppend(levels: seq<PriceLevel>, level: PriceLevel)
    ensures forall p :: Lists(levels + [level], p) <==> Lists(levels, p) || p == level.price
  {
    var longer := levels + [level];
    forall p
      ensures Lists(longer, p) <==> Lists(levels, p) || p == level.price
    {
      if Lists(levels, p) {
        var i :| 0 <= i < |levels| && levels[i].price == p;
        assert longer[i].price == p;
      }
      assert longer[|levels|] == level;
    }
  }

  method Fill<T>(a: array<T>, value: T)
    modifies a
    ensures forall i :: 0 <= i < a.Length ==> a[i] == value
  {
    for i := 0 to a.Length
      invariant forall j :: 0 <= j < i ==> a[j] == value
    {
      a[i] := value;
    }
  }

  method ShiftInto<T>(src: array<T>, dst: array<T>, active: nat, shift: int, zero: T)
    requires src != dst && active <= src.Length == dst.Length
    modifies dst
    ensures Shifted(src[..], dst[..], active, shift, zero)
  {
    Fill(dst, zero);
    for i := 0 to active
      invariant forall j :: 0 <= j < active ==>
                  dst[j] == if 0 <= j - shift < i then src[j - shift] else zero
    {
      var k := i + shift;
      if 0 <= k < active {
        dst[k] := src[i];
      }
    }
  }

  method ClearSide(sizes: array<real>, counts: array<nat>, ghost base: int, ghost active: nat)
    requires active <= sizes.Length == counts.Length
    modifies sizes, counts
    ensures CellsOf(sizes[..], counts[..], base, active) == map[]
  {
    Fill(sizes, 0.0);
    Fill(counts, 0);
  }

  method PutCell(sizes: array<real>, counts: array<nat>, base: int, ghost active: nat,
                 price: int, size: real, count: nat)
    requires active <= sizes.Length == counts.Length && base <= price < base + active
    modifies sizes, counts
    ensures CellsOf(sizes[..], counts[..], base, active) ==
            Put(old(CellsOf(sizes[..], counts[..], base, active)), price, size, count)
  {
    CellsOfPut(sizes[..], counts[..], base, active, price, size, count);
    sizes[price - base] := size;
    counts[price - base] := count;
  }

  method ShiftSide(sizes: array<real>, counts: array<nat>, newSizes: array<real>, newCounts: array<nat>,
                   base: int, newBase: int, active: nat)
    requires active <= sizes.Length == counts.Length == newSizes.Length == newCounts.Length
    requires sizes != newSizes && counts != newCounts
    modifies newSizes, newCounts
    ensures CellsOf(newSizes[..], newCounts[..], newBase, active) ==
            Restrict(CellsOf(sizes[..], counts[..], base, active), newBase, active)
  {
    ShiftInto(sizes, newSizes, active, base - newBase, 0.0);
    ShiftInto(counts, newCounts, active, base - newBase, 0);
    ShiftIsRestrict(sizes[..], counts[..], newSizes[..], newCounts[..], base, newBase, active);
  }

  /** The four vectors the book keeps, and keeps a second set of for recentering. */
  datatype Grid = Grid(bidSizes: array<real>, askSizes: array<real>, bidCounts: array<nat>, askCounts: array<nat>)
  {
    ghost function Objects(): set<object> {
      {bidSizes as object, askSizes, bidCounts, askCounts}
    }

    ghost predicate Fits(n: nat) {
      && bidSizes.Length == askSizes.Length == bidCounts.Length == askCounts.Length == n
      && bidSizes != askSizes && bidCounts != askCounts
    }

    ghost function Bids(base: int, active: nat): Cells
      reads bidSizes, bidCounts
      requires active <= bidSizes.Length == bidCounts.Length
    {
      CellsOf(bidSizes[..], bidCounts[..], base, active)
    }

    ghost function Asks(base: int, active: nat): Cells
      reads askSizes, askCounts
      requires active <= askSizes.Length == askCounts.Length
    {
      CellsOf(askSizes[..], askCounts[..], base, active)
    }
  }

  method NewGrid(n: nat) returns (g: Grid)
    ensures g.Fits(n) && fresh(g.Objects())
    ensures g.Bids(0, n) == map[] && g.Asks(0, n) == map[]
  {
    var bidSizes := new real[n](_ => 0.0);
    var askSizes := new real[n](_ => 0.0);
    var bidCounts := new nat[n](_ => 0);
    var askCounts := new nat[n](_ => 0);
    g := Grid(bidSizes, askSizes, bidCounts, askCounts);
  }

  lemma {:induction false} StreakForgotten(v: BookView, streak: nat, anchor: int)
    ensures Recentered(v.(streak := streak), anchor) == Recentered(v, anchor)
  {
  }

  class OrderBook {
    const maxLevels: nat
    var active: nat
    var base: int
    var sequence: UInt64
    var initialized: bool
    var streak: nat
    var grid: Grid
    var scratch: Grid

    ghost function Repr(): set<object>
      reads this
    {
      {this} + grid.Objects() + scratch.Objects()
    }

    ghost predicate Valid()
      reads this
    {
      && 2 <= active <= maxLevels
      && grid.Fits(maxLevels) && scratch.Fits(maxLevels)
      && grid.Objects() !! scratch.Objects()
    }

    ghost function View(): BookView
      reads this, Repr()
      requires Valid()
    {
      BookView(maxLevels, active, base, sequence, initialized, streak,
               grid.Bids(base, active), grid.Asks(base, active))
    }

    constructor (maxLevels: nat)
      requires maxLevels >= 2
      ensures Valid() && fresh(Repr()) && View() == Empty(maxLevels)
    {
      this.maxLevels := maxLevels;
      active, base, sequence, initialized, streak := maxLevels, 0, 0, false, 0;
      var live := NewGrid(maxLevels);
      var spare := NewGrid(maxLevels);
      grid, scratch := live, spare;
    }

    /** Index of a price in the window, if it has one. */
    function PriceToIndex(price: int): Option<nat>
      reads this
    {
      if !initialized || price < base || price - base >= active then None else Some(price - base)
    }

    method LoadSide(levels: seq<PriceLevel>, sizes: array<real>, counts: array<nat>) returns (skipped: nat)
      requires active <= sizes.Length == counts.Length && initialized
      requires CellsOf(sizes[..], counts[..], base, active) == map[]
      modifies sizes, counts
      ensures CellsOf(sizes[..], counts[..], base, active) == PutLevels(map[], levels, base, active)
      ensures skipped == Outside(levels, base, active)
    {
      skipped := 0;
      for i := 0 to |levels|
        invariant CellsOf(sizes[..], counts[..], base, active) == PutLevels(map[], levels[..i], base, active)
        invariant skipped == Outside(levels[..i], base, active)
      {
        assert levels[..i + 1][..i] == levels[..i];
        var index := PriceToIndex(levels[i].price);
        if index == None {
          skipped := skipped + 1;
        } else {
          PutCell(sizes, counts, base, active, levels[i].price, levels[i].size, levels[i].count);
        }
      }
      assert levels[..|levels|] == levels;
    }

    method Reset(levels: nat, newBase: int, newSequence: UInt64)
      requires Valid() && 2 <= levels <= maxLevels
      modifies Repr()
      ensures Valid() && Repr() == old(Repr())
      ensures grid == old(grid)
      ensures View() == BookView(maxLevels, levels, newBase, newSequence, true, 0, map[], map[])
    {
      initialized := false;
      ClearSide(grid.bidSizes, grid.bidCounts, newBase, levels);
      ClearSide(grid.askSizes, grid.askCounts, newBase, levels);
      active := levels;
      base := newBase;
      sequence := newSequence;
      streak := 0;
      initialized := true;
    }

    method ApplySnapshot(s: Snapshot) returns (outcome: Outcome)
      requires Valid()
      modifies Repr()
      ensures Valid() && Repr() == old(Repr())
      ensures (View(), outcome) == ApplySnapshotTo(old(View()), s)
    {
      if s.bids == [] || s.asks == [] {
        return InvalidPrice;
      }
      var spread := s.asks[0].price - s.bids[0].price;
      if spread <= 0 {
        return InvalidPrice;
      }
      var levels := ActiveLevels(maxLevels, s.bids[0].price);
      if 4 * spread > Max(4, levels) {
        return InvalidPrice;
      }
      if !s.ChecksumMatches() {
        return BookCorrupted;
      }
      ActiveLevelsFit(maxLevels, s.bids[0].price);
      Reset(levels, BasePrice(s.bids[0].price, levels), s.sequence);
      var skippedBids := LoadSide(s.bids, grid.bidSizes, grid.bidCounts);
      var skippedAsks := LoadSide(s.asks, grid.askSizes, grid.askCounts);
      if (skippedBids + skippedAsks) * 2 > |s.bids| + |s.asks| {
        initialized := false;
        return BookCorrupted;
      }
      return Success;
    }

    /** Highest price with a positive bid, 0 when there is none. */
    method GetBestBid() returns (price: int)
      requires Valid()
      ensures if View().bids == map[] then price == 0 else IsBest(View(), Bid, price)
    {
      var i := active;
      while i > 0
        invariant 0 <= i <= active && forall j :: i <= j < active ==> !(grid.bidSizes[j] > 0.0)
      {
        i := i - 1;
        if grid.bidSizes[i] > 0.0 {
          assert base + i in View().bids;
          return base + i;
        }
      }
      return 0;
    }

    /** Lowest price with a positive ask, 0 when there is none. */
    method GetBestAsk() returns (price: int)
      requires Valid()
      ensures if View().asks == map[] then price == 0 else IsBest(View(), Ask, price)
    {
      for i := 0 to active
        invariant forall j :: 0 <= j < i ==> !(grid.askSizes[j] > 0.0)
      {
        if grid.askSizes[i] > 0.0 {
          assert base + i in View().asks;
          return base + i;
        }
      }
      return 0;
    }

    method DeltaImprovesTouch(d: Delta) returns (improves: bool)
      requires Valid()
      ensures improves == ImprovesTouch(View(), d)
    {
      if d.side == Bid {
        var bestBid := GetBestBid();
        improves := bestBid <= 0 || d.price >= bestBid;
      } else {
        var bestAsk := GetBestAsk();
        improves := bestAsk <= 0 || d.price <= bestAsk;
      }
    }

    method ShouldRecenter(d: Delta) returns (recenter: bool)
      requires Valid()
      modifies this`streak
      ensures (recenter, streak) == RecenterDecision(old(View()), d)
    {
      var improves := DeltaImprovesTouch(d);
      if !improves {
        streak := 0;
        return false;
      }
      var relative := d.price - base;
      var upper := active - 1;
      var breach := if relative < 0 then -relative else if relative > upper then relative - upper else 0;
      if breach <= 0 {
        streak := 0;
        return false;
      }
      streak := streak + 1;
      return 5 * breach >= 3 * active || streak >= RECENTER_STREAK;
    }

    method ShiftIntoScratch(newBase: int)
      requires Valid()
      modifies scratch.Objects()
      ensures scratch.Bids(newBase, active) == Restrict(grid.Bids(base, active), newBase, active)
      ensures scratch.Asks(newBase, active) == Restrict(grid.Asks(base, active), newBase, active)
    {
      ShiftSide(grid.bidSizes, grid.bidCounts, scratch.bidSizes, scratch.bidCounts, base, newBase, active);
      ShiftSide(grid.askSizes, grid.askCounts, scratch.askSizes, scratch.askCounts, base, newBase, active);
    }

    method RecenterGrid(anchor: int)
      requires Valid()
      modifies Repr()
      ensures Valid() && Repr() == old(Repr())
      ensures View() == Recentered(old(View()), anchor)
    {
      var newBase := anchor - active / 2;
      ShiftIntoScratch(newBase);
      grid, scratch := scratch, grid;
      base := newBase;
      streak := 0;
    }

    method WriteCell(d: Delta)
      requires Valid() && View().InWindow(d.price)
      modifies this`streak, this`sequence, grid.Objects()
      ensures View() == Stamp(PutDelta(old(View()), d), d)
    {
      streak := 0;
      StampSequence(d);
      if d.side == Bid {
        PutCell(grid.bidSizes, grid.bidCounts, base, active, d.price, d.size, d.count);
      } else {
        PutCell(grid.askSizes, grid.askCounts, base, active, d.price, d.size, d.count);
      }
    }

    method StampSequence(d: Delta)
      modifies this`sequence
      ensures sequence == if d.sequence > 0 then d.sequence else old(sequence)
    {
      if d.sequence > 0 {
        sequence := d.sequence;
      }
    }

    /** Decides about a price outside the window, and moves the window when it should. */
    method MakeRoom(d: Delta) returns (room: bool)
      requires Valid()
      modifies Repr()
      ensures Valid() && Repr() == old(Repr())
      ensures var (recenter, newStreak) := RecenterDecision(old(View()), d);
              && room == recenter
              && View() == if room then Recentered(old(View()), d.price) else old(View()).(streak := newStreak)
    {
      ghost var before := View();
      room := ShouldRecenter(d);
      assert View() == before.(streak := streak);
      if room {
        StreakForgotten(before, streak, d.price);
        RecenterGrid(d.price);
      }
    }

    /** The source's error for a price still outside the grid after recentering has no counterpart in
        the specification: RecenterKeepsLevels puts the price inside. */
    method ApplyDelta(d: Delta) returns (outcome: Outcome)
      requires Valid()
      modifies Repr()
      ensures Valid() && Repr() == old(Repr())
      ensures (View(), outcome) == ApplyDeltaTo(old(View()), d)
    {
      if !initialized {
        return BookCorrupted;
      }
      if d.size < 0.0 {
        return InvalidSize;
      }
      if d.sequence > 0 && d.sequence < sequence {
        return Success;
      }
      PlaceDelta(d);
      return Success;
    }

    method PlaceDelta(d: Delta)
      requires Valid() && initialized
      modifies Repr()
      ensures Valid() && Repr() == old(Repr())
      ensures View() == Place(old(View()), d)
    {
      if PriceToIndex(d.price) == None {
        var room := MakeRoom(d);
        if !room {
          StampSequence(d);
          return;
        }
      }
      WriteCell(d);
    }

    /** The first n positive levels of each side, best first. */
    method GetTopLevels(n: nat) returns (bids: seq<PriceLevel>, asks: seq<PriceLevel>)
      requires Valid()
      ensures IsTop(View().bids, Bid, n, bids)
      ensures IsTop(View().asks, Ask, n, asks)
    {
      bids := TopBids(n);
      asks := TopAsks(n);
    }

    method TopBids(n: nat) returns (levels: seq<PriceLevel>)
      requires Valid()
      ensures IsTop(View().bids, Bid, n, levels)
    {
      levels := [];
      ghost var cells := View().bids;
      var i := active;
      while i > 0 && |levels| < n
        invariant 0 <= i <= active && |levels| <= n && Ranked(cells, Bid, levels)
        invariant forall p :: Lists(levels, p) ==> p - base >= i
        invariant forall p :: p in cells && p - base >= i ==> Lists(levels, p)
      {
        i := i - 1;
        if grid.bidSizes[i] > 0.0 {
          var level := PriceLevel(base + i, grid.bidSizes[i], grid.bidCounts[i]);
          RankedAppend(cells, Bid, levels, level);
          ListsAppend(levels, level);
          levels := levels + [level];
        }
      }
      assert forall j :: 0 <= j < |levels| ==> Lists(levels, levels[j].price);
    }

    method TopAsks(n: nat) returns (levels: seq<PriceLevel>)
      requires Valid()
      ensures IsTop(View().asks, Ask, n, levels)
    {
      levels := [];
      ghost var cells := View().asks;
      var i := 0;
      while i < active && |levels| < n
        invariant 0 <= i <= active && |levels| <= n && Ranked(cells, Ask, levels)
        invariant forall p :: Lists(levels, p) ==> p - base < i
        invariant forall p :: p in cells && p - base < i ==> Lists(levels, p)
      {
        if grid.askSizes[i] > 0.0 {
          var level := PriceLevel(base + i, grid.askSizes[i], grid.askCounts[i]);
          RankedAppend(cells, Ask, levels, level);
          ListsAppend(levels, level);
          levels := levels + [level];
        }
        i := i + 1;
      }
      assert forall j :: 0 <= j < |levels| ==> Lists(levels, levels[j].price);
    }
  }
}
