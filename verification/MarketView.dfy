/** The Binance feed wired to the price grid: what a reader of the grid sees, against the exchange. */
module MarketView {
  import opened Common
  import opened MarketData
  import opened BinanceFeed
  import opened PriceGrid

  /** What the feed hands on never steps back in sequence between snapshots. */
  ghost predicate Ordered(s: FeedState) {
    InOrder(s.emitted) && Newest(s.emitted) <= s.lastSequence
  }

  lemma {:induction false} ApplyOrdered(log: Log, s: FeedState, d: Diff)
    requires ValidLog(log) && Ordered(s) && HonestDiff(log, d) && Bridges(s.lastSequence, d)
    ensures Ordered(Apply(s, d))
  {
    var calls := DiffCallbacks(d);
    forall i | 0 <= i < |calls|
      ensures calls[i].OnDelta? && calls[i].delta.size >= 0.0 && calls[i].delta.sequence == d.last
    {
      SizeAtNonNegative(log, d.last, Key(calls[i].delta.side, calls[i].delta.price));
    }
    BurstInOrder(s.emitted, calls, d.last);
  }

  lemma {:induction false} ReplayOrdered(log: Log, s: FeedState, ds: seq<Diff>)
    requires ValidLog(log) && Ordered(s) && forall i :: 0 <= i < |ds| ==> HonestDiff(log, ds[i])
    ensures Ordered(Replay(s, ds).0)
    decreases |ds|
  {
    if ds != [] && Bridges(s.lastSequence, ds[0]) {
      ApplyOrdered(log, s, ds[0]);
      ReplayOrdered(log, Apply(s, ds[0]), ds[1..]);
    }
  }

  lemma {:induction false} StepOrdered(log: Log, s: FeedState, e: Event)
    requires ValidLog(log) && Inv(log, s) && Ordered(s) && HonestEvent(log, e)
    ensures Ordered(Step(s, e))
  {
    match e
    case Message(Depth(d)) =>
      if !s.mode.Buffering? && d.last > s.lastSequence && Bridges(s.lastSequence, d) {
        ApplyOrdered(log, s, d);
      }
    case ReplayBuffer => BufferedOrdered(log, s);
    case _ =>
  }

  lemma {:induction false} BufferedOrdered(log: Log, s: FeedState)
    requires ValidLog(log) && Inv(log, s) && Ordered(s)
    ensures Ordered(ApplyBuffered(s, s.lastSequence).0)
  {
    ReplayOrdered(log, s, s.buffer[StaleCount(s.buffer, s.lastSequence)..]);
  }

  lemma {:induction false} RunOrdered(log: Log, s: FeedState, events: seq<Event>)
    requires ValidLog(log) && Inv(log, s) && Ordered(s)
    requires forall i :: 0 <= i < |events| ==> HonestEvent(log, events[i])
    ensures Ordered(Run(s, events))
    decreases |events|
  {
    if events != [] {
      StepOrdered(log, s, events[0]);
      StepKeepsInv(log, s, events[0]);
      RunOrdered(log, Step(s, events[0]), events[1..]);
    }
  }

  /** What the grid shows after a run of the feed handler. */
  ghost function Screen(maxLevels: nat, events: seq<Event>): Tracked {
    ConsumeAll(maxLevels, Run(FRESH, events).emitted)
  }

  /** The snapshot the feed handed on last, and whether a grid of this size takes it. */
  ghost predicate LatestAcceptable(maxLevels: nat, events: seq<Event>) {
    var latest := LatestSnapshot(Run(FRESH, events).emitted);
    latest.Some? && Acceptable(maxLevels, latest.value)
  }

  /** Exchange log, feed, grid end to end: whatever gaps, resyncs, aborted replays and recenterings a run
      contains, the screen is true as long as the latest snapshot is one the grid takes. */
  lemma {:induction false} NoStaleLevelEverShown(log: Log, maxLevels: nat, events: seq<Event>)
    requires maxLevels >= 2 && ValidLog(log)
    requires forall i :: 0 <= i < |events| ==> HonestEvent(log, events[i])
    requires LatestAcceptable(maxLevels, events)
    ensures TrueScreen(log, Screen(maxLevels, events), Run(FRESH, events).lastSequence)
  {
    RunKeepsInv(log, FRESH, events);
    RunOrdered(log, FRESH, events);
    BelievedIsShown(log, Run(FRESH, events).lastSequence, maxLevels, Run(FRESH, events).emitted);
  }

  // ---------------------------------------------------------------- snapshots the grid turns away

  /** A fetched snapshot that fails the grid's early checks leaves the earlier screen up, while the handler's
      sequence number moves on to the snapshot's. */
  lemma {:induction false} RejectedSnapshotLeavesScreen(maxLevels: nat, events: seq<Event>, snapshot: Snapshot)
    requires Precheck(maxLevels, snapshot) != Success && Usable(snapshot)
    requires Run(FRESH, events).phase == Fetching && Run(FRESH, events).running
    ensures var longer := events + [SnapshotReplied(Parsed(snapshot))];
            && Screen(maxLevels, longer).book == Screen(maxLevels, events).book
            && Run(FRESH, longer).lastSequence == snapshot.sequence
  {
    var e := SnapshotReplied(Parsed(snapshot));
    RunOne(FRESH, events, e);
    TurnedAway(maxLevels, Run(FRESH, events).emitted, snapshot);
  }

  // An honest run that ends with a stale screen: the grid takes the first snapshot, the market widens, and
  // the second is turned away for its spread.

  function WideningLog(): Log {
    [map[Key(Bid, 10) := 1.0, Key(Ask, 11) := 1.0],
     map[Key(Bid, 10) := 2.0, Key(Ask, 11) := 0.0, Key(Ask, 5000) := 1.0]]
  }

  function Tight(): Snapshot {
    Snapshot(1, [PriceLevel(10, 1.0, 0)], [PriceLevel(11, 1.0, 0)], None, 0)
  }

  function Wide(): Snapshot {
    Snapshot(2, [PriceLevel(10, 2.0, 0)], [PriceLevel(5000, 1.0, 0)], None, 0)
  }

  function FirstSession(): seq<Event> {
    [Start, Established, SnapshotReplied(Parsed(Tight())), ReplayBuffer, GoLive, ServiceEnded, Established]
  }

  lemma {:induction false} WideningSizes(key: Key)
    ensures SizeAt(WideningLog(), 1, key) == if key == Key(Bid, 10) || key == Key(Ask, 11) then 1.0 else 0.0
    ensures SizeAt(WideningLog(), 2, key) ==
            if key == Key(Bid, 10) then 2.0 else if key == Key(Ask, 5000) then 1.0 else 0.0
  {
    assert SizeAt(WideningLog(), 0, key) == 0.0;
  }

  lemma {:induction false} WideningIsHonest()
    ensures ValidLog(WideningLog())
    ensures CompleteSnapshot(WideningLog(), Tight()) && CompleteSnapshot(WideningLog(), Wide())
  {
    forall key
      ensures SizeAt(WideningLog(), 1, key) != 0.0 ==> Lists(Tight().Levels(key.side), key.price)
      ensures SizeAt(WideningLog(), 2, key) != 0.0 ==> Lists(Wide().Levels(key.side), key.price)
    {
      WideningSizes(key);
      assert Tight().Levels(Bid)[0].price == 10 && Tight().Levels(Ask)[0].price == 11;
      assert Wide().Levels(Bid)[0].price == 10 && Wide().Levels(Ask)[0].price == 5000;
    }
    WideningSizes(Key(Bid, 10));
    WideningSizes(Key(Ask, 11));
    WideningSizes(Key(Ask, 5000));
  }

  lemma {:induction false} FirstSessionRuns()
    ensures var s := Run(FRESH, FirstSession());
            s.phase == Fetching && s.running && s.emitted == [OnSnapshot(Tight())] && s.lastSequence == 1
  {
    var es := FirstSession();
    var s3 := FRESH.(running := true, mode := Buffering, phase := Handoff, lastSequence := 1,
                     emitted := [OnSnapshot(Tight())]);
    assert [] + [OnSnapshot(Tight())] == [OnSnapshot(Tight())];
    assert Step(Step(Step(FRESH, Start), Established), SnapshotReplied(Parsed(Tight()))) == s3;
    var s5 := s3.(mode := Streaming, phase := Serving);
    assert Step(Step(s3, ReplayBuffer), GoLive) == s5;
    var s7 := Step(Step(s5, ServiceEnded), Established);
    assert s7.phase == Fetching && s7.running && s7.emitted == [OnSnapshot(Tight())] && s7.lastSequence == 1;
    Three(FRESH, es[0], es[1], es[2], es[3..]);
    Two(s3, es[3], es[4], es[5..]);
    Two(s5, es[5], es[6], []);
    assert es == [es[0], es[1], es[2]] + es[3..] && es[3..] == [es[3], es[4]] + es[5..];
    assert es[5..] == [es[5], es[6]] + [];
  }

  lemma {:induction false} Two(s: FeedState, a: Event, b: Event, rest: seq<Event>)
    ensures Run(s, [a, b] + rest) == Run(Step(Step(s, a), b), rest)
  {
    assert ([a, b] + rest)[1..] == [b] + rest && ([b] + rest)[1..] == rest;
  }

  lemma {:induction false} Three(s: FeedState, a: Event, b: Event, c: Event, rest: seq<Event>)
    ensures Run(s, [a, b, c] + rest) == Run(Step(Step(Step(s, a), b), c), rest)
  {
    assert [a, b, c] + rest == [a, b] + ([c] + rest);
    Two(s, a, b, [c] + rest);
    assert ([c] + rest)[1..] == rest;
  }

  lemma {:induction false} TightShown(maxLevels: nat)
    requires maxLevels >= 2
    ensures var v := BookAfter(maxLevels, [OnSnapshot(Tight())]);
            v.initialized && v.Displayed(Key(Bid, 10)) == 1.0
  {
    var s := Tight();
    var active := ActiveLevels(maxLevels, 10);
    assert [OnSnapshot(s)][..0] == [];
    assert BookAfter(maxLevels, []) == Empty(maxLevels);
    OneLevel(s.bids, BasePrice(10, active), active);
    assert s.asks[..0] == [];
    assert BookAfter(maxLevels, [OnSnapshot(s)]) == ApplySnapshotTo(Empty(maxLevels), s).0;
  }

  /** An honest run after which the book is ready and shows a size the exchange does not have. */
  ghost predicate StaleRun(log: Log, maxLevels: nat, events: seq<Event>, key: Key) {
    var t, s := Screen(maxLevels, events), Run(FRESH, events);
    && ValidLog(log) && (forall i :: 0 <= i < |events| ==> HonestEvent(log, events[i]))
    && !LatestAcceptable(maxLevels, events) && t.book.initialized && s.lastSequence <= |log|
    && t.book.Displayed(key) != 0.0 && t.book.Displayed(key) != SizeAt(log, s.lastSequence, key)
  }

  /** A complete snapshot that fails the early checks makes every level it changes stale on the screen. */
  lemma {:induction false} RejectionIsStale(log: Log, maxLevels: nat, first: seq<Event>, snapshot: Snapshot, key: Key)
    requires ValidLog(log) && (forall i :: 0 <= i < |first| ==> HonestEvent(log, first[i]))
    requires CompleteSnapshot(log, snapshot) && Usable(snapshot) && Precheck(maxLevels, snapshot) != Success
    requires Run(FRESH, first).phase == Fetching && Run(FRESH, first).running
    requires Screen(maxLevels, first).book.initialized && Screen(maxLevels, first).book.Displayed(key) != 0.0
    requires Screen(maxLevels, first).book.Displayed(key) != SizeAt(log, snapshot.sequence, key)
    ensures StaleRun(log, maxLevels, first + [SnapshotReplied(Parsed(snapshot))], key)
  {
    var e := SnapshotReplied(Parsed(snapshot));
    RejectedSnapshotLeavesScreen(maxLevels, first, snapshot);
    RunOne(FRESH, first, e);
    NotLatestAcceptable(maxLevels, Run(FRESH, first).emitted, snapshot);
    assert Run(FRESH, first + [e]).emitted == Run(FRESH, first).emitted + [OnSnapshot(snapshot)];
  }

  lemma {:induction false} FirstSessionScreen(maxLevels: nat, events: seq<Event>)
    requires maxLevels >= 2 && Run(FRESH, events).emitted == [OnSnapshot(Tight())]
    ensures Screen(maxLevels, events).book.initialized && Screen(maxLevels, events).book.Displayed(Key(Bid, 10)) == 1.0
  {
    TightShown(maxLevels);
  }

  lemma {:induction false} FirstSessionIsHonest(events: seq<Event>)
    requires events == FirstSession()
    ensures forall i :: 0 <= i < |events| ==> HonestEvent(WideningLog(), events[i])
  {
    WideningIsHonest();
  }

  lemma {:induction false} FirstSessionFacts(maxLevels: nat) returns (events: seq<Event>)
    requires maxLevels >= 2
    ensures forall i :: 0 <= i < |events| ==> HonestEvent(WideningLog(), events[i])
    ensures Run(FRESH, events).phase == Fetching && Run(FRESH, events).running
    ensures Screen(maxLevels, events).book.initialized && Screen(maxLevels, events).book.Displayed(Key(Bid, 10)) == 1.0
  {
    events := FirstSession();
    FirstSessionRuns();
    FirstSessionIsHonest(events);
    FirstSessionScreen(maxLevels, events);
  }

  /** Without that condition the screen can be wrong, on a grid of any size: the market widens, the handler
      is at update 2, and the book says it is ready and shows the bid of update 1. */
  lemma {:induction false} WideMarketLeavesStaleScreen(maxLevels: nat)
    requires maxLevels >= 2
    ensures exists events :: StaleRun(WideningLog(), maxLevels, events, Key(Bid, 10))
  {
    var events := FirstSessionFacts(maxLevels);
    WideningIsHonest();
    WideningSizes(Key(Bid, 10));
    RejectionIsStale(WideningLog(), maxLevels, events, Wide(), Key(Bid, 10));
  }

  lemma {:induction false} NotLatestAcceptable(maxLevels: nat, calls: seq<Callback>, s: Snapshot)
    ensures LatestSnapshot(calls + [OnSnapshot(s)]) == Some(s)
  {
  }

  lemma {:induction false} RunOne(s: FeedState, events: seq<Event>, e: Event)
    ensures Run(s, events + [e]) == Step(Run(s, events), e)
  {
    RunSplit(s, events, [e]);
    assert [e][1..] == [];
    assert Run(Step(Run(s, events), e), []) == Step(Run(s, events), e);
  }

  // ---------------------------------------------------------------- the grid fed call by call

  /** The book manager hands each callback to the book and only logs a failure. */
  method Deliver(book: OrderBook, calls: seq<Callback>)
    requires book.Valid()
    modifies book.Repr()
    ensures book.Valid() && book.Repr() == old(book.Repr())
    ensures book.View() == Feed(old(book.View()), calls)
  {
    for i := 0 to |calls|
      invariant book.Valid() && book.Repr() == old(book.Repr())
      invariant book.View() == Feed(old(book.View()), calls[..i])
    {
      assert calls[..i + 1][..i] == calls[..i];
      match calls[i] {
        case OnSnapshot(s) =>
          var _ := book.ApplySnapshot(s);
        case OnDelta(d) =>
          var _ := book.ApplyDelta(d);
      }
    }
    assert calls[..|calls|] == calls;
  }

  ghost function Feed(v: BookView, calls: seq<Callback>): BookView
    decreases |calls|
  {
    if calls == [] then v
    else
      var w := Feed(v, calls[..|calls| - 1]);
      match calls[|calls| - 1]
      case OnSnapshot(s) => ApplySnapshotTo(w, s).0
      case OnDelta(d) => ApplyDeltaTo(w, d).0
  }

  lemma {:induction false} FeedIsConsumed(maxLevels: nat, calls: seq<Callback>)
    ensures Feed(Empty(maxLevels), calls) == ConsumeAll(maxLevels, calls).book
    decreases |calls|
  {
    if calls != [] {
      FeedIsConsumed(maxLevels, calls[..|calls| - 1]);
    }
  }

  /** A handler object and a grid object run together show what the theorem above says. */
  method RunPipeline(ghost log: Log, maxLevels: nat, events: seq<Event>)
      returns (handler: BinanceFeedHandler, book: OrderBook)
    requires maxLevels >= 2 && ValidLog(log)
    requires forall i :: 0 <= i < |events| ==> HonestEvent(log, events[i])
    ensures fresh(handler) && fresh(book) && book.Valid()
    ensures handler.View() == Run(FRESH, events) && book.View() == Screen(maxLevels, events).book
    ensures LatestAcceptable(maxLevels, events) ==>
              TrueScreen(log, Screen(maxLevels, events), handler.lastSequence)
  {
    handler := new BinanceFeedHandler();
    book := new OrderBook(maxLevels);
    handler.HandleAll(events);
    Deliver(book, handler.emitted);
    FeedIsConsumed(maxLevels, handler.emitted);
    if LatestAcceptable(maxLevels, events) { NoStaleLevelEverShown(log, maxLevels, events); }
  }
}
