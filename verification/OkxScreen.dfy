/** The OKX feed wired to the price grid: what a reader of the grid sees, against the exchange. */
module OkxScreen {
  import opened Common
  import opened MarketData
  import opened OkxFeed
  import opened OkxView
  import opened PriceGrid

  /** Since the latest snapshot what the feed hands on never steps back in sequence. */
  ghost predicate Ordered(s: Feed) {
    s.session.Since? ==> InOrder(s.emitted) && Newest(s.emitted) <= s.last
  }

  lemma {:induction false} AcceptOrdered(log: Log, s: Feed, d: Diff)
    requires ValidLog(log) && Ordered(s) && HonestDiff(log, d) && Follows(s.last, d)
    ensures Ordered(Accept(s, d))
  {
    if s.session.Since? {
      var bids, asks := Deltas(Bid, d.bids, d.seqId), Deltas(Ask, d.asks, d.seqId);
      SizesNotNegative(log, d, Bid, d.bids);
      SizesNotNegative(log, d, Ask, d.asks);
      BurstInOrder(s.emitted, bids, d.seqId);
      BurstInOrder(s.emitted + bids, asks, d.seqId);
    }
  }

  lemma {:induction false} SizesNotNegative(log: Log, d: Diff, side: Side, levels: seq<Level>)
    requires ValidLog(log) && d.seqId <= |log| && SizesAt(log, d.seqId, side, levels)
    ensures forall i :: 0 <= i < |levels| ==> Deltas(side, levels, d.seqId)[i].delta.size >= 0.0
  {
    forall i | 0 <= i < |levels|
      ensures levels[i].size >= 0.0
    {
      SizeAtNonNegative(log, d.seqId, Key(side, levels[i].price));
    }
  }

  lemma {:induction false} ReplayOrdered(log: Log, s: Feed, ds: seq<Diff>)
    requires ValidLog(log) && Ordered(s) && forall i :: 0 <= i < |ds| ==> HonestDiff(log, ds[i])
    ensures Ordered(Replay(s, ds).0)
    decreases |ds|
  {
    if ds != [] {
      if ds[0].seqId <= s.last {
        ReplayOrdered(log, s, ds[1..]);
      } else if Follows(s.last, ds[0]) && ChecksumOk(s.book, ds[0]) {
        AcceptOrdered(log, s, ds[0]);
        ReplayOrdered(log, Accept(s, ds[0]), ds[1..]);
      }
    }
  }

  lemma {:induction false} StepOrdered(log: Log, s: Feed, e: Event)
    requires ValidLog(log) && Mirrors(log, s) && Ordered(s)
    requires e.Received? && e.message.Update? ==> HonestDiff(log, e.message.diff)
    ensures Ordered(Step(s, e))
  {
    match e
    case Received(BookSnapshot(x, bids, asks)) =>
      ReplayOrdered(log, Install(s, x, bids, asks), s.buffer);
    case Received(Update(d)) =>
      if s.mode.Streaming? && Follows(s.last, d) && ChecksumOk(s.book, d) { AcceptOrdered(log, s, d); }
    case _ =>
  }

  /** Between snapshots every run hands calls on in the order the grid needs. */
  lemma {:induction false} RunOrdered(log: Log, c: Channel, s: Feed, events: seq<Event>)
    requires ValidLog(log) && Tracks(c, s) && Inv(s) && Mirrors(log, s) && Ordered(s) && HonestStream(log, c, events)
    ensures Ordered(Run(s, events))
    decreases |events|
  {
    if events != [] {
      StepKeepsInv(s, events[0]);
      StepTracks(log, c, s, events[0]);
      StepOrdered(log, s, events[0]);
      RunOrdered(log, Next(c, events[0]), Step(s, events[0]), events[1..]);
    }
  }

  /** Exchange log, feed, grid end to end: after any honest stream, with whatever gaps, refused checksums,
      half replays, reconnects and recenterings, the grid shows the exchange's book at the handler's id as
      long as the connection has had a snapshot and the latest one is one the grid takes. */
  lemma {:induction false} NoStaleLevelEverShown(log: Log, maxLevels: nat, events: seq<Event>)
    requires maxLevels >= 2 && ValidLog(log) && HonestStream(log, Waiting([]), events)
    requires var s := Run(FRESH, events);
             var latest := LatestSnapshot(s.emitted);
             s.session.Since? && latest.Some? && Acceptable(maxLevels, latest.value)
    ensures var s := Run(FRESH, events); TrueScreen(log, ConsumeAll(maxLevels, s.emitted), s.last)
  {
    AlwaysTheExchangesBook(log, events);
    RunOrdered(log, Waiting([]), FRESH, events);
    BelievedIsShown(log, Run(FRESH, events).last, maxLevels, Run(FRESH, events).emitted);
  }
}
