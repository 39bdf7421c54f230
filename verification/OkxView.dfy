/** The OKX feed against the exchange: on honest messages the checked chain is the exchange's own book. */
module OkxView {
  import opened Common
  import opened MarketData
  import opened OkxFeed

  // ---------------------------------------------------------------- honesty

  predicate Listed(levels: seq<Level>, price: int) {
    exists i :: 0 <= i < |levels| && levels[i].price == price
  }

  ghost predicate SizesAt(log: Log, n: nat, side: Side, levels: seq<Level>)
    requires n <= |log|
  {
    forall i :: 0 <= i < |levels| ==> levels[i].size == SizeAt(log, n, Key(side, levels[i].price))
  }

  /** Every level the diff lists has the size as of the diff's own id. */
  ghost predicate FinalSizes(log: Log, d: Diff) {
    d.seqId <= |log| && SizesAt(log, d.seqId, Bid, d.bids) && SizesAt(log, d.seqId, Ask, d.asks)
  }

  /** The diff lists every level touched after `from` and up to its own id. */
  ghost predicate Covers(log: Log, from: nat, d: Diff)
    requires d.seqId <= |log|
  {
    forall i, key :: from <= i < d.seqId && key in log[i] ==> Listed(d.Levels(key.side), key.price)
  }

  /** The sizes are final, and a diff that names the id before it lists what was touched since. */
  ghost predicate HonestDiff(log: Log, d: Diff) {
    && FinalSizes(log, d)
    && (d.prevSeqId != 0 ==> d.prevSeqId <= d.seqId && Covers(log, d.prevSeqId, d))
  }

  function AsSnapshot(seqId: UInt64, bids: seq<Level>, asks: seq<Level>): Snapshot {
    Snapshot(seqId, PriceLevels(bids), PriceLevels(asks), None, 0)
  }

  /** What one connection has sent: diffs that wait for a snapshot, or since a snapshot the id of the latest
      message and the diffs so far, of which the handler may hold the last few. */
  datatype Channel = Waiting(pending: seq<Diff>) | Live(latest: UInt64, pending: seq<Diff>)
  {
    /** The id up to which a replay after a snapshot at `x` has certainly come when it meets diff `i`. */
    function From(x: UInt64, i: nat): nat
      requires i < |pending|
    {
      if Waiting? && i > 0 then Max(x, pending[i - 1].seqId) else x
    }
  }

  function Next(c: Channel, e: Event): Channel {
    match e
    case Connected => Waiting([])
    case Received(ErrorEvent) => Waiting([])
    case Received(BadSnapshot) => Waiting([])
    case Received(BookSnapshot(x, bids, asks)) => if bids == [] || asks == [] then Waiting([]) else Live(x, [])
    case Received(Update(d)) =>
      if c.Live? then Live(d.seqId, c.pending + [d])
      else Waiting(if |c.pending| < MAX_BUFFER_SIZE then c.pending + [d] else [])
    case _ => c
  }

  /** Snapshots are complete and diffs honest; one that names no id before it lists what was touched since
      the message before it, and since the snapshot it may be replayed after. */
  ghost predicate HonestEvent(log: Log, c: Channel, e: Event) {
    match e
    case Received(Update(d)) =>
      HonestDiff(log, d) && (d.prevSeqId == 0 && c.Live? ==> Covers(log, c.latest, d))
    case Received(BookSnapshot(x, bids, asks)) =>
      && CompleteSnapshot(log, AsSnapshot(x, bids, asks))
      && forall i :: 0 <= i < |c.pending| && c.pending[i].prevSeqId == 0 && c.pending[i].seqId <= |log| ==>
           Covers(log, c.From(x, i), c.pending[i])
    case _ => true
  }

  ghost predicate HonestStream(log: Log, c: Channel, events: seq<Event>)
    decreases |events|
  {
    events == [] || (HonestEvent(log, c, events[0]) && HonestStream(log, Next(c, events[0]), events[1..]))
  }

  // ---------------------------------------------------------------- the book is the exchange's

  ghost predicate BookIs(log: Log, n: nat, b: Book) {
    && n <= |log|
    && forall key: Key :: SizeIn(b.Side(key.side), key.price) == SizeAt(log, n, key)
  }

  /** After a snapshot the local book is the exchange's at the last id, and what waits is honest. */
  ghost predicate Mirrors(log: Log, s: Feed) {
    && (s.session.Since? ==> BookIs(log, s.last, s.book))
    && forall i :: 0 <= i < |s.buffer| ==> HonestDiff(log, s.buffer[i])
  }

  /** Levels that agree on a price's size decide it; a price none of them lists keeps what it had. */
  lemma {:induction false} LevelsGive(side: Side, entries: seq<Entry>, levels: seq<Level>, price: int, size: real)
    requires Sorted(side, entries)
    requires forall i :: 0 <= i < |levels| && levels[i].price == price ==> levels[i].size == size
    ensures SizeIn(ApplyLevels(side, entries, levels), price) ==
            if Listed(levels, price) then size else SizeIn(entries, price)
    decreases |levels|
  {
    if levels != [] {
      var n := |levels| - 1;
      LevelsGive(side, entries, levels[..n], price, size);
      LevelsKeepSorted(side, entries, levels[..n]);
      LevelFacts(side, ApplyLevels(side, entries, levels[..n]), levels[n], price);
      ListedAppend(levels[..n], levels[n], price);
      assert levels == levels[..n] + [levels[n]];
    }
  }

  lemma {:induction false} ListedAppend(levels: seq<Level>, l: Level, price: int)
    ensures Listed(levels + [l], price) <==> Listed(levels, price) || l.price == price
  {
    if Listed(levels, price) {
      var i :| 0 <= i < |levels| && levels[i].price == price;
      assert (levels + [l])[i].price == price;
    }
    if l.price == price {
      assert (levels + [l])[|levels|].price == price;
    }
  }

  /** Every level the diff does not list has the same size at the earlier id as at the diff's own. */
  ghost predicate UnlistedKept(log: Log, last: nat, d: Diff)
    requires last <= |log| && d.seqId <= |log|
  {
    forall key: Key :: !Listed(d.Levels(key.side), key.price) ==> SizeAt(log, last, key) == SizeAt(log, d.seqId, key)
  }

  lemma {:induction false} DiffSize(log: Log, b: Book, d: Diff, last: nat, key: Key)
    requires SortedBook(b) && BookIs(log, last, b) && FinalSizes(log, d)
    ensures SizeIn(ApplyDiff(b, d).Side(key.side), key.price) ==
            if Listed(d.Levels(key.side), key.price) then SizeAt(log, d.seqId, key) else SizeAt(log, last, key)
  {
    assert Key(key.side, key.price) == key;
    LevelsGive(key.side, b.Side(key.side), d.Levels(key.side), key.price, SizeAt(log, d.seqId, key));
  }

  lemma {:induction false} CoveredIsKept(log: Log, from: nat, last: nat, d: Diff)
    requires from <= last <= d.seqId <= |log| && Covers(log, from, d)
    ensures UnlistedKept(log, last, d)
  {
    forall key: Key | !Listed(d.Levels(key.side), key.price)
      ensures SizeAt(log, last, key) == SizeAt(log, d.seqId, key)
    {
      SizeAtUntouched(log, last, d.seqId, key);
    }
  }

  /** A diff with final sizes, taken in a state in step with the exchange, leaves the book the exchange's at
      the diff's id exactly when every level it does not list kept its size: that is all that can be lost
      with a missed message. */
  lemma {:induction false} TakenExactly(log: Log, s: Feed, d: Diff)
    requires Inv(s) && s.mode.Streaming? && BookIs(log, s.last, s.book)
    requires Follows(s.last, d) && ChecksumOk(s.book, d) && FinalSizes(log, d)
    ensures var t := Step(s, Received(Update(d)));
            && t.mode.Streaming? && t.last == d.seqId
            && (BookIs(log, t.last, t.book) <==> UnlistedKept(log, s.last, d))
  {
    AcceptedExactly(log, s, d);
  }

  lemma {:induction false} AcceptedExactly(log: Log, s: Feed, d: Diff)
    requires SortedBook(s.book) && BookIs(log, s.last, s.book) && FinalSizes(log, d)
    ensures BookIs(log, d.seqId, Accept(s, d).book) <==> UnlistedKept(log, s.last, d)
  {
    var b := ApplyDiff(s.book, d);
    forall key: Key
      ensures SizeIn(b.Side(key.side), key.price) ==
              if Listed(d.Levels(key.side), key.price) then SizeAt(log, d.seqId, key) else SizeAt(log, s.last, key)
    {
      DiffSize(log, s.book, d, s.last, key);
    }
    if BookIs(log, d.seqId, b) {
      forall key: Key | !Listed(d.Levels(key.side), key.price)
        ensures SizeAt(log, s.last, key) == SizeAt(log, d.seqId, key)
      {
        assert SizeIn(b.Side(key.side), key.price) == SizeAt(log, d.seqId, key);
      }
    }
  }

  /** From where a diff's list has to reach back when it is taken at `last`. */
  ghost predicate Reaches(log: Log, last: nat, d: Diff) {
    d.seqId <= |log| && (d.prevSeqId == 0 ==> Covers(log, last, d))
  }

  lemma {:induction false} AcceptMirrors(log: Log, s: Feed, d: Diff)
    requires Inv(s) && Mirrors(log, s) && HonestDiff(log, d) && Follows(s.last, d) && Reaches(log, s.last, d)
    ensures Mirrors(log, Accept(s, d))
  {
    if s.session.Since? {
      CoveredIsKept(log, s.last, s.last, d);
      AcceptedExactly(log, s, d);
    }
  }

  lemma {:induction false} InstallMirrors(log: Log, s: Feed, seqId: UInt64, bids: seq<Level>, asks: seq<Level>)
    requires Mirrors(log, s) && CompleteSnapshot(log, AsSnapshot(seqId, bids, asks))
    ensures Mirrors(log, Install(s, seqId, bids, asks))
  {
    var snapshot := AsSnapshot(seqId, bids, asks);
    forall key: Key
      ensures SizeIn(OpeningBook(bids, asks).Side(key.side), key.price) == SizeAt(log, seqId, key)
    {
      CompleteSnapshotLists(log, snapshot, key);
      OpeningSize(key.side, if key.side.Bid? then bids else asks, key.price);
    }
  }

  /** Each diff lists what was touched since the later of `last` and the diff before it. */
  ghost predicate Linked(log: Log, last: nat, ds: seq<Diff>)
    decreases |ds|
  {
    ds == [] || (Reaches(log, last, ds[0]) && Linked(log, Max(last, ds[0].seqId), ds[1..]))
  }

  lemma {:induction false} ReplayMirrors(log: Log, s: Feed, ds: seq<Diff>)
    requires Inv(s) && Mirrors(log, s) && (forall i :: 0 <= i < |ds| ==> HonestDiff(log, ds[i]))
    requires Linked(log, s.last, ds)
    ensures Mirrors(log, Replay(s, ds).0) && Replay(s, ds).0.last >= s.last && Replay(s, ds).0.buffer == []
    decreases |ds|
  {
    if ds != [] {
      if ds[0].seqId <= s.last {
        ReplayMirrors(log, s, ds[1..]);
      } else if Follows(s.last, ds[0]) && ChecksumOk(s.book, ds[0]) {
        AcceptKeepsInv(s, ds[0]);
        AcceptMirrors(log, s, ds[0]);
        ReplayMirrors(log, Accept(s, ds[0]), ds[1..]);
      }
    }
  }

  lemma {:induction false} SnapshotMirrors(log: Log, s: Feed, x: UInt64, bids: seq<Level>, asks: seq<Level>)
    requires Inv(s) && Mirrors(log, s) && CompleteSnapshot(log, AsSnapshot(x, bids, asks)) && Linked(log, x, s.buffer)
    ensures var t := OnBookSnapshot(s, x, bids, asks).0;
            Mirrors(log, t) && (t.mode.Streaming? ==> t.last >= x) && t.buffer == []
  {
    InstallKeepsInv(s, x, bids, asks);
    InstallMirrors(log, s, x, bids, asks);
    ReplayMirrors(log, Install(s, x, bids, asks), s.buffer);
  }

  // ---------------------------------------------------------------- what the handler knows of its channel

  ghost predicate Suffix(xs: seq<Diff>, ys: seq<Diff>) {
    |xs| <= |ys| && ys[|ys| - |xs|..] == xs
  }

  ghost predicate Tracks(c: Channel, s: Feed) {
    match c
    case Waiting(pending) => !s.mode.Streaming? && s.buffer == pending
    case Live(latest, pending) =>
      Suffix(s.buffer, pending) && (s.mode.Streaming? ==> s.last >= latest && s.buffer == [])
  }

  lemma {:induction false} StepTracks(log: Log, c: Channel, s: Feed, e: Event)
    requires Tracks(c, s) && Inv(s) && Mirrors(log, s) && HonestEvent(log, c, e)
    ensures Tracks(Next(c, e), Step(s, e)) && Mirrors(log, Step(s, e))
  {
    match e
    case Received(BookSnapshot(x, bids, asks)) =>
      PendingLinked(log, c, s, x);
      SnapshotMirrors(log, s, x, bids, asks);
    case Received(Update(d)) => UpdateTracks(log, c, s, d);
    case _ =>
  }

  lemma {:induction false} UpdateTracks(log: Log, c: Channel, s: Feed, d: Diff)
    requires Tracks(c, s) && Inv(s) && Mirrors(log, s) && HonestEvent(log, c, Received(Update(d)))
    ensures var t := OnUpdate(s, d).0; Tracks(Next(c, Received(Update(d))), t) && Mirrors(log, t)
  {
    if s.mode.Streaming? && Follows(s.last, d) && ChecksumOk(s.book, d) { AcceptMirrors(log, s, d); }
  }

  /** What the snapshot has to say of every diff sent holds of those in the buffer. */
  lemma {:induction false} PendingLinked(log: Log, c: Channel, s: Feed, x: UInt64)
    requires Tracks(c, s) && Mirrors(log, s)
    requires forall i :: 0 <= i < |c.pending| && c.pending[i].prevSeqId == 0 && c.pending[i].seqId <= |log| ==>
               Covers(log, c.From(x, i), c.pending[i])
    ensures Linked(log, x, s.buffer)
  {
    var skip := |c.pending| - |s.buffer|;
    forall i | 0 <= i < |s.buffer|
      ensures Reaches(log, if i == 0 then x else Max(x, s.buffer[i - 1].seqId), s.buffer[i])
    {
      assert s.buffer[i] == c.pending[skip + i];
      assert HonestDiff(log, s.buffer[i]);
      assert c.Live? ==> c.From(x, skip + i) == x;
    }
    LinkedFrom(log, x, x, s.buffer);
  }

  lemma {:induction false} LinkedFrom(log: Log, x: nat, last: nat, ds: seq<Diff>)
    requires x <= last
    requires ds != [] ==> Reaches(log, last, ds[0])
    requires forall i :: 0 < i < |ds| ==> Reaches(log, Max(x, ds[i - 1].seqId), ds[i])
    ensures Linked(log, last, ds)
    decreases |ds|
  {
    if |ds| > 1 {
      var rest := ds[1..];
      assert Reaches(log, Max(x, ds[1 - 1].seqId), ds[1]);
      forall i | 0 < i < |rest|
        ensures Reaches(log, Max(x, rest[i - 1].seqId), rest[i])
      {
        assert Reaches(log, Max(x, ds[i + 1 - 1].seqId), ds[i + 1]);
      }
      LinkedFrom(log, x, Max(last, ds[0].seqId), rest);
    }
  }

  lemma {:induction false} RunMirrors(log: Log, c: Channel, s: Feed, events: seq<Event>)
    requires Tracks(c, s) && Inv(s) && Mirrors(log, s) && HonestStream(log, c, events)
    ensures Inv(Run(s, events)) && Mirrors(log, Run(s, events))
    decreases |events|
  {
    if events != [] {
      StepKeepsInv(s, events[0]);
      StepTracks(log, c, s, events[0]);
      RunMirrors(log, Next(c, events[0]), Step(s, events[0]), events[1..]);
    }
  }

  /** Main result: in every reachable state since a snapshot, and so whenever it streams, the local book and
      the consumer's fold of the callbacks are both the exchange's book at the last id accepted -- after
      gaps, checksum failures, replays that stop half way and reconnects. */
  lemma {:induction false} AlwaysTheExchangesBook(log: Log, events: seq<Event>)
    requires HonestStream(log, Waiting([]), events)
    ensures var s := Run(FRESH, events);
            && (s.mode.Streaming? ==> s.session.Since?)
            && (s.session.Since? ==>
                  && BookIs(log, s.last, s.book)
                  && forall key :: Shown(s.emitted, key) == SizeAt(log, s.last, key))
  {
    RunMirrors(log, Waiting([]), FRESH, events);
    var s := Run(FRESH, events);
    if s.session.Since? {
      forall key: Key
        ensures Shown(s.emitted, key) == SizeAt(log, s.last, key)
      {
        assert Shown(s.emitted, key) == SizeIn(s.book.Side(key.side), key.price);
      }
    }
  }

  // A missed message that nothing notices: bid 9 appears at update 2, the message that says so is lost, and
  // the next diff names no id before it.

  function MissedLog(): Log {
    [map[Key(Bid, 10) := 1.0, Key(Ask, 11) := 1.0], map[Key(Bid, 9) := 2.0], map[Key(Ask, 12) := 3.0]]
  }

  function At(price: int, size: real): Level {
    Level(price, size, 0, [], [])
  }

  function NamelessDiff(): Diff {
    Diff(3, 0, None, [], [At(12, 3.0)])
  }

  function MissedEvents(): seq<Event> {
    [Connected, Received(BookSnapshot(1, [At(10, 1.0)], [At(11, 1.0)])), Received(Update(NamelessDiff()))]
  }

  lemma {:induction false} MissedSizes(key: Key)
    ensures SizeAt(MissedLog(), 1, key) == if key == Key(Bid, 10) || key == Key(Ask, 11) then 1.0 else 0.0
    ensures SizeAt(MissedLog(), 2, key) == if key == Key(Bid, 9) then 2.0 else SizeAt(MissedLog(), 1, key)
    ensures SizeAt(MissedLog(), 3, key) == if key == Key(Ask, 12) then 3.0 else SizeAt(MissedLog(), 2, key)
  {
    assert SizeAt(MissedLog(), 0, key) == 0.0;
  }

  lemma {:induction false} MissedIsHonest()
    ensures CompleteSnapshot(MissedLog(), AsSnapshot(1, [At(10, 1.0)], [At(11, 1.0)]))
    ensures HonestDiff(MissedLog(), NamelessDiff()) && Covers(MissedLog(), 2, NamelessDiff())
  {
    var snapshot := AsSnapshot(1, [At(10, 1.0)], [At(11, 1.0)]);
    forall key
      ensures SizeAt(MissedLog(), 1, key) != 0.0 ==> Lists(snapshot.Levels(key.side), key.price)
    {
      MissedSizes(key);
      assert snapshot.Levels(Bid)[0].price == 10 && snapshot.Levels(Ask)[0].price == 11;
    }
    MissedSizes(Key(Bid, 10));
    MissedSizes(Key(Ask, 11));
    MissedSizes(Key(Ask, 12));
    assert NamelessDiff().asks[0].price == 12;
  }

  /** A run on an honest snapshot and a diff that lists all of its own update, with one message lost between
      them: the handler streams, at the diff's id, without the bid the exchange has. */
  lemma {:induction false} MissedDiffUnnoticed()
    ensures var s := Run(FRESH, MissedEvents());
            && s.mode.Streaming? && s.last == 3
            && SizeIn(s.book.bids, 9) == 0.0 && SizeAt(MissedLog(), 3, Key(Bid, 9)) == 2.0
    ensures CompleteSnapshot(MissedLog(), AsSnapshot(1, [At(10, 1.0)], [At(11, 1.0)]))
    ensures HonestDiff(MissedLog(), NamelessDiff()) && Covers(MissedLog(), 2, NamelessDiff())
  {
    MissedIsHonest();
    MissedSizes(Key(Bid, 9));
    var es := MissedEvents();
    var s1 := Step(FRESH, es[0]);
    var s2 := Step(s1, es[1]);
    var s3 := Step(s2, es[2]);
    OneLevelBook(At(10, 1.0));
    assert s2.mode.Streaming? && s2.last == 1 && s2.book.bids == [Entry(10, [], [], 1.0)];
    assert s3.mode.Streaming? && s3.last == 3 && s3.book.bids == s2.book.bids;
    assert SizeIn(s3.book.bids[1..], 9) == 0.0;
    assert es[1..][0] == es[1] && es[1..][1..] == es[2..] && es[2..][0] == es[2] && es[2..][1..] == [];
    assert Run(FRESH, es) == Run(s1, es[1..]) == Run(s2, es[2..]) == Run(s3, []);
  }

  lemma {:induction false} OneLevelBook(l: Level)
    requires l.size != 0.0
    ensures ApplyLevels(Bid, [], [l]) == [Entry(l.price, l.priceText, l.sizeText, l.size)]
  {
    assert [l][..0] == [];
  }
}
