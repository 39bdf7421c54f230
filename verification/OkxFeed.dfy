/** The OKX book channel: a chain of diffs checked by previous id and by a checksum of the book each one
    would leave, streamed or replayed from a buffer after a snapshot. */
module OkxFeed {
  import opened Common
  import opened MarketData
  import opened Crc32

  const MAX_BUFFER_SIZE: nat := 1000
  const CHECKSUM_LEVELS: nat := 25
  const COLON: bv8 := 0x3A

  /** A signed 64-bit number as its two halves. */
  datatype Int64 = Int64(high: bv32, low: bv32)

  /** A level as received: its texts, and the numbers they read as. */
  datatype Level = Level(price: int, size: real, count: nat, priceText: Bytes, sizeText: Bytes)

  datatype Diff = Diff(seqId: UInt64, prevSeqId: UInt64, checksum: Option<Int64>, bids: seq<Level>, asks: seq<Level>)
  {
    function Levels(side: Side): seq<Level> {
      if side.Bid? then bids else asks
    }
  }

  datatype Message =
    | Ignored
    | ErrorEvent
    | BadSnapshot
    | BookSnapshot(seqId: UInt64, bids: seq<Level>, asks: seq<Level>)
    | Update(diff: Diff)

  // ---------------------------------------------------------------- the local book

  /** An entry of one side's ordered map; `size` is what `sizeText` reads as. */
  datatype Entry = Entry(price: int, priceText: Bytes, sizeText: Bytes, size: real)

  datatype Book = Book(bids: seq<Entry>, asks: seq<Entry>)
  {
    function Side(side: Side): seq<Entry> {
      if side.Bid? then bids else asks
    }
  }

  const EMPTY_BOOK := Book([], [])

  /** The order of one side's map: best price first. */
  predicate Before(side: Side, p: int, q: int) {
    if side.Bid? then p > q else p < q
  }

  function Put(side: Side, entries: seq<Entry>, e: Entry): seq<Entry>
    decreases |entries|
  {
    if entries == [] || Before(side, e.price, entries[0].price) then [e] + entries
    else if entries[0].price == e.price then [e] + entries[1..]
    else [entries[0]] + Put(side, entries[1..], e)
  }

  function Erase(entries: seq<Entry>, price: int): seq<Entry>
    decreases |entries|
  {
    if entries == [] then []
    else if entries[0].price == price then entries[1..]
    else [entries[0]] + Erase(entries[1..], price)
  }

  function ApplyLevel(side: Side, entries: seq<Entry>, l: Level): seq<Entry> {
    if l.size == 0.0 then Erase(entries, l.price)
    else Put(side, entries, Entry(l.price, l.priceText, l.sizeText, l.size))
  }

  function ApplyLevels(side: Side, entries: seq<Entry>, levels: seq<Level>): seq<Entry>
    decreases |levels|
  {
    if levels == [] then entries
    else ApplyLevel(side, ApplyLevels(side, entries, levels[..|levels| - 1]), levels[|levels| - 1])
  }

  function ApplyDiff(b: Book, d: Diff): Book {
    Book(ApplyLevels(Bid, b.bids, d.bids), ApplyLevels(Ask, b.asks, d.asks))
  }

  function SizeIn(entries: seq<Entry>, price: int): real
    decreases |entries|
  {
    if entries == [] then 0.0
    else if entries[0].price == price then entries[0].size
    else SizeIn(entries[1..], price)
  }

  ghost predicate Sorted(side: Side, entries: seq<Entry>)
    decreases |entries|
  {
    |entries| <= 1 || (Before(side, entries[0].price, entries[1].price) && Sorted(side, entries[1..]))
  }

  lemma {:induction false} Absent(side: Side, entries: seq<Entry>, price: int)
    requires Sorted(side, entries) && (entries == [] || Before(side, price, entries[0].price))
    ensures SizeIn(entries, price) == 0.0
    decreases |entries|
  {
    if entries != [] { Absent(side, entries[1..], price); }
  }

  lemma {:induction false} PutKeepsSorted(side: Side, entries: seq<Entry>, e: Entry)
    requires Sorted(side, entries)
    ensures var r := Put(side, entries, e);
            && Sorted(side, r) && r != []
            && (r[0] == e || (entries != [] && r[0] == entries[0] && Before(side, entries[0].price, e.price)))
    decreases |entries|
  {
    if entries != [] && !Before(side, e.price, entries[0].price) && entries[0].price != e.price {
      PutKeepsSorted(side, entries[1..], e);
      var r := Put(side, entries[1..], e);
      assert ([entries[0]] + r)[1..] == r;
    } else if entries != [] {
      assert ([e] + entries)[1..] == entries && ([e] + entries[1..])[1..] == entries[1..];
    }
  }

  lemma {:induction false} PutSize(side: Side, entries: seq<Entry>, e: Entry, price: int)
    ensures SizeIn(Put(side, entries, e), price) == if price == e.price then e.size else SizeIn(entries, price)
    decreases |entries|
  {
    var r := Put(side, entries, e);
    if entries != [] && !Before(side, e.price, entries[0].price) && entries[0].price != e.price {
      PutSize(side, entries[1..], e, price);
      assert r[1..] == Put(side, entries[1..], e);
    } else if entries != [] && Before(side, e.price, entries[0].price) {
      assert r[1..] == entries;
    } else if entries != [] {
      assert r[1..] == entries[1..];
    } else {
      assert r[1..] == [];
    }
  }

  lemma {:induction false} EraseFacts(side: Side, entries: seq<Entry>, gone: int, price: int)
    requires Sorted(side, entries)
    ensures Sorted(side, Erase(entries, gone))
    ensures Erase(entries, gone) != [] ==>
              |entries| > 0 && (Erase(entries, gone)[0] == entries[0]
                                || (|entries| > 1 && Erase(entries, gone)[0] == entries[1]))
    ensures SizeIn(Erase(entries, gone), price) == if price == gone then 0.0 else SizeIn(entries, price)
    decreases |entries|
  {
    if entries != [] {
      if entries[0].price == gone {
        if |entries| > 1 { Absent(side, entries[1..], gone); }
      } else {
        EraseFacts(side, entries[1..], gone, price);
        var rest := Erase(entries[1..], gone);
        assert ([entries[0]] + rest)[1..] == rest;
        if |entries| > 2 { BeforeTransitive(side, entries[0].price, entries[1].price, entries[2].price); }
      }
    }
  }

  lemma {:induction false} BeforeTransitive(side: Side, p: int, q: int, r: int)
    requires Before(side, p, q) && Before(side, q, r)
    ensures Before(side, p, r)
  {
  }

  /** A received level decides its own price and no other. */
  lemma {:induction false} LevelFacts(side: Side, entries: seq<Entry>, l: Level, price: int)
    requires Sorted(side, entries)
    ensures Sorted(side, ApplyLevel(side, entries, l))
    ensures SizeIn(ApplyLevel(side, entries, l), price) == if price == l.price then l.size else SizeIn(entries, price)
  {
    if l.size == 0.0 {
      EraseFacts(side, entries, l.price, price);
    } else {
      PutKeepsSorted(side, entries, Entry(l.price, l.priceText, l.sizeText, l.size));
      PutSize(side, entries, Entry(l.price, l.priceText, l.sizeText, l.size), price);
    }
  }

  lemma {:induction false} LevelsKeepSorted(side: Side, entries: seq<Entry>, levels: seq<Level>)
    requires Sorted(side, entries)
    ensures Sorted(side, ApplyLevels(side, entries, levels))
    decreases |levels|
  {
    if levels != [] {
      var init := levels[..|levels| - 1];
      LevelsKeepSorted(side, entries, init);
      LevelFacts(side, ApplyLevels(side, entries, init), levels[|levels| - 1], 0);
    }
  }

  ghost predicate SortedBook(b: Book) {
    Sorted(Bid, b.bids) && Sorted(Ask, b.asks)
  }

  // ---------------------------------------------------------------- the checksum

  function Field(e: Entry): Bytes {
    e.priceText + [COLON] + e.sizeText
  }

  predicate Done(b: Book, i: nat) {
    i >= CHECKSUM_LEVELS || (i >= |b.bids| && i >= |b.asks|)
  }

  /** The stream after row `i`: a colon before every row but the first, and one before an ask whenever
      anything has been written. */
  function WithRow(b: Book, i: nat, oss: Bytes): Bytes {
    var o1 := if i > 0 then oss + [COLON] else oss;
    var o2 := if i < |b.bids| then o1 + Field(b.bids[i]) else o1;
    if i < |b.asks| then (if |o2| > 0 then o2 + [COLON] else o2) + Field(b.asks[i]) else o2
  }

  function TextFrom(b: Book, i: nat, oss: Bytes): Bytes
    decreases CHECKSUM_LEVELS - i
  {
    if Done(b, i) then oss else TextFrom(b, i + 1, WithRow(b, i, oss))
  }

  function Text(b: Book): Bytes {
    TextFrom(b, 0, [])
  }

  /** A 32-bit pattern read as a signed number and widened to the 64 bits it is compared in. */
  function Signed(c: bv32): Int64 {
    Int64(if c & 0x8000_0000 == 0 then 0 else 0xFFFF_FFFF, c)
  }

  function Checksum(b: Book): Int64 {
    Signed(Crc(Text(b)))
  }

  // ---------------------------------------------------------------- the checksum's text

  /** The fields of the rows from `i` on, price and size with a colon between, bid before ask in each row. */
  function Fields(b: Book, i: nat): seq<Bytes>
    decreases CHECKSUM_LEVELS - i
  {
    if Done(b, i) then []
    else
      (if i < |b.bids| then [b.bids[i].priceText + [COLON] + b.bids[i].sizeText] else [])
      + (if i < |b.asks| then [b.asks[i].priceText + [COLON] + b.asks[i].sizeText] else [])
      + Fields(b, i + 1)
  }

  /** Each field with a colon before it. */
  function Led(fields: seq<Bytes>): Bytes
    decreases |fields|
  {
    if fields == [] then [] else [COLON] + fields[0] + Led(fields[1..])
  }

  /** The fields with one colon between neighbours. */
  function Joined(fields: seq<Bytes>): Bytes {
    if fields == [] then [] else fields[0] + Led(fields[1..])
  }

  /** What row `i` adds to a text that has begun. */
  function Row(b: Book, i: nat): Bytes {
    [COLON] + (if i < |b.bids| then Field(b.bids[i]) else [])
    + (if i < |b.asks| then [COLON] + Field(b.asks[i]) else [])
  }

  function Tail(b: Book, i: nat): Bytes
    decreases CHECKSUM_LEVELS - i
  {
    if Done(b, i) then [] else Row(b, i) + Tail(b, i + 1)
  }

  /** Rows from `i` on that have an ask and no bid. */
  function Gaps(b: Book, i: nat): nat
    decreases CHECKSUM_LEVELS - i
  {
    if Done(b, i) then 0
    else (if i >= |b.bids| then 1 else 0) + Gaps(b, i + 1)
  }

  lemma {:induction false} RowAppended(b: Book, i: nat, oss: Bytes)
    requires i > 0 && |oss| > 0
    ensures WithRow(b, i, oss) == oss + Row(b, i)
  {
  }

  lemma {:induction false} TextTail(b: Book, i: nat, oss: Bytes)
    requires i > 0 && |oss| > 0
    ensures TextFrom(b, i, oss) == oss + Tail(b, i)
    decreases CHECKSUM_LEVELS - i
  {
    if !Done(b, i) {
      RowAppended(b, i, oss);
      TextTail(b, i + 1, oss + Row(b, i));
      Regroup(oss, Row(b, i), Tail(b, i + 1));
    }
  }

  lemma {:induction false} Regroup(x: Bytes, y: Bytes, z: Bytes)
    ensures (x + y) + z == x + (y + z)
  {
  }

  lemma {:induction false} LedTwo(first: seq<Bytes>, rest: seq<Bytes>)
    requires |first| <= 2
    ensures Led(first + rest) == (if |first| > 0 then [COLON] + first[0] else [])
                                 + (if |first| > 1 then [COLON] + first[1] else []) + Led(rest)
  {
    if |first| == 0 {
      assert first + rest == rest;
    } else {
      assert (first + rest)[1..] == first[1..] + rest;
      if |first| == 1 {
        assert first[1..] + rest == rest;
      } else {
        assert (first[1..] + rest)[1..] == rest;
      }
    }
  }

  /** Every row with an ask and no bid puts one colon too many. */
  lemma {:induction false} TailLed(b: Book, i: nat)
    requires i > 0
    ensures |Tail(b, i)| == |Led(Fields(b, i))| + Gaps(b, i)
    ensures Gaps(b, i) == 0 ==> Tail(b, i) == Led(Fields(b, i))
    decreases CHECKSUM_LEVELS - i
  {
    if !Done(b, i) {
      TailLed(b, i + 1);
      var row := (if i < |b.bids| then [Field(b.bids[i])] else []) + (if i < |b.asks| then [Field(b.asks[i])] else []);
      assert Fields(b, i) == row + Fields(b, i + 1);
      LedTwo(row, Fields(b, i + 1));
    }
  }

  lemma {:induction false} GapsZero(b: Book, i: nat)
    ensures Gaps(b, i) == 0 <==> i >= CHECKSUM_LEVELS || |b.asks| <= i || |b.asks| <= |b.bids| || |b.bids| >= CHECKSUM_LEVELS
    decreases CHECKSUM_LEVELS - i
  {
    if !Done(b, i) { GapsZero(b, i + 1); }
  }

  /** The checksummed text is the plain list of fields, one colon between neighbours, exactly unless the
      book shows more asks than bids below the first row; then it has doubled colons. */
  lemma {:induction false} TextIsJoined(b: Book)
    ensures Text(b) == Joined(Fields(b, 0)) <==>
            |b.asks| <= 1 || |b.asks| <= |b.bids| || |b.bids| >= CHECKSUM_LEVELS
  {
    GapsZero(b, 1);
    if |b.bids| > 0 || |b.asks| > 0 {
      TailLed(b, 1);
      FirstRow(b);
    }
  }

  /** The first row's text. */
  function Lead(b: Book): Bytes {
    (if |b.bids| > 0 then Field(b.bids[0]) else [])
    + (if |b.asks| > 0 then (if |b.bids| > 0 then [COLON] else []) + Field(b.asks[0]) else [])
  }

  lemma {:induction false} FirstRow(b: Book)
    requires |b.bids| > 0 || |b.asks| > 0
    ensures Text(b) == Lead(b) + Tail(b, 1) && Joined(Fields(b, 0)) == Lead(b) + Led(Fields(b, 1))
  {
    FirstText(b);
    TextTail(b, 1, Lead(b));
    FirstFields(b, Fields(b, 1));
  }

  lemma {:induction false} FirstText(b: Book)
    requires |b.bids| > 0 || |b.asks| > 0
    ensures WithRow(b, 0, []) == Lead(b) && |Lead(b)| > 0
  {
  }

  lemma {:induction false} FirstFields(b: Book, rest: seq<Bytes>)
    requires |b.bids| > 0 || |b.asks| > 0
    ensures var first := (if |b.bids| > 0 then [Field(b.bids[0])] else [])
                         + (if |b.asks| > 0 then [Field(b.asks[0])] else []);
            Joined(first + rest) == Lead(b) + Led(rest)
  {
    if |b.bids| > 0 && |b.asks| > 0 {
      var x, y := Field(b.bids[0]), Field(b.asks[0]);
      assert ([x] + [y] + rest)[1..] == [y] + rest;
      LedTwo([y], rest);
      Regroup(x, [COLON] + y, Led(rest));
    } else if |b.bids| > 0 {
      assert ([Field(b.bids[0])] + [] + rest)[1..] == rest;
    } else {
      assert ([] + [Field(b.asks[0])] + rest)[1..] == rest;
    }
  }

  /** A diff that would leave a book whose text differs from the venue's only within four adjacent bytes
      is refused. */
  lemma {:induction false} WrongBookRefused(b: Book, d: Diff, before: Bytes, ours: Bytes, theirs: Bytes, after: Bytes)
    requires |ours| == |theirs| <= 4 && ours != theirs
    requires Text(ApplyDiff(b, d)) == before + ours + after
    requires d.checksum == Some(Signed(Crc(before + theirs + after)))
    ensures !ChecksumOk(b, d)
  {
    if Signed(Crc(before + ours + after)) == Signed(Crc(before + theirs + after)) {
      BurstDetected(before, ours, theirs, after);
    }
  }

  predicate ChecksumOk(b: Book, d: Diff) {
    d.checksum.Some? ==> Checksum(ApplyDiff(b, d)) == d.checksum.value
  }

  // ---------------------------------------------------------------- what each step does

  datatype Mode = Disconnected | Buffering | Streaming

  /** What has been accepted since the last snapshot that was installed. */
  datatype Session = NoSnapshot | Since(base: UInt64, opening: Book, accepted: seq<Diff>)

  datatype Feed = Feed(
    mode: Mode, last: UInt64, buffer: seq<Diff>, book: Book, reconnect: bool, emitted: seq<Callback>,
    session: Session)

  const FRESH := Feed(Disconnected, 0, [], EMPTY_BOOK, false, [], NoSnapshot)

  function Deltas(side: Side, levels: seq<Level>, seqId: UInt64): seq<Callback> {
    seq(|levels|, i requires 0 <= i < |levels| =>
      OnDelta(Delta(side, levels[i].price, levels[i].size, levels[i].count, seqId)))
  }

  function PriceLevels(levels: seq<Level>): (r: seq<PriceLevel>) {
    seq(|levels|, i requires 0 <= i < |levels| => PriceLevel(levels[i].price, levels[i].size, levels[i].count))
  }

  predicate Follows(last: UInt64, d: Diff) {
    if d.prevSeqId != 0 then d.prevSeqId == last else d.seqId > last
  }

  function Resync(s: Feed): Feed {
    s.(buffer := [], mode := Buffering, reconnect := true)
  }

  function Accept(s: Feed, d: Diff): Feed {
    s.(last := d.seqId, book := ApplyDiff(s.book, d),
       emitted := s.emitted + Deltas(Bid, d.bids, d.seqId) + Deltas(Ask, d.asks, d.seqId),
       session := if s.session.Since? then s.session.(accepted := s.session.accepted + [d]) else s.session)
  }

  /** Replays buffered diffs in order, skipping those the book already holds. */
  function Replay(s: Feed, ds: seq<Diff>): (Feed, Outcome)
    decreases |ds|
  {
    if ds == [] then (s.(buffer := []), Success)
    else if ds[0].seqId <= s.last then Replay(s, ds[1..])
    else if !Follows(s.last, ds[0]) then (s.(buffer := []), SequenceGap)
    else if !ChecksumOk(s.book, ds[0]) then (s.(buffer := []), BookCorrupted)
    else Replay(Accept(s, ds[0]), ds[1..])
  }

  function OpeningBook(bids: seq<Level>, asks: seq<Level>): Book {
    Book(ApplyLevels(Bid, [], bids), ApplyLevels(Ask, [], asks))
  }

  function Install(s: Feed, seqId: UInt64, bids: seq<Level>, asks: seq<Level>): Feed {
    var book := OpeningBook(bids, asks);
    s.(book := book, last := seqId, session := Since(seqId, book, []),
       emitted := s.emitted + [OnSnapshot(Snapshot(seqId, PriceLevels(bids), PriceLevels(asks), None, 0))])
  }

  function OnBookSnapshot(s: Feed, seqId: UInt64, bids: seq<Level>, asks: seq<Level>): (Feed, Outcome) {
    if bids == [] || asks == [] then (Resync(s), BookCorrupted)
    else
      var (t, outcome) := Replay(Install(s, seqId, bids, asks), s.buffer);
      if outcome != Success then (Resync(t), BookCorrupted) else (t.(mode := Streaming), Success)
  }

  function OnUpdate(s: Feed, d: Diff): (Feed, Outcome) {
    if !s.mode.Streaming? then
      (if |s.buffer| < MAX_BUFFER_SIZE then s.(buffer := s.buffer + [d]) else Resync(s), Success)
    else if !Follows(s.last, d) then (Resync(s), SequenceGap)
    else if !ChecksumOk(s.book, d) then (Resync(s), BookCorrupted)
    else (Accept(s, d), Success)
  }

  function OnMessage(s: Feed, m: Message): (Feed, Outcome) {
    match m
    case Ignored => (s, Success)
    case ErrorEvent => (Resync(s), ConnectionLost)
    case BadSnapshot => (Resync(s), BookCorrupted)
    case BookSnapshot(seqId, bids, asks) => OnBookSnapshot(s, seqId, bids, asks)
    case Update(d) => OnUpdate(s, d)
  }

  /** A connection is established: everything known is dropped. */
  function OnConnect(s: Feed): Feed {
    s.(mode := Buffering, buffer := [], book := EMPTY_BOOK, last := 0, reconnect := false, session := NoSnapshot)
  }

  datatype Event = Connected | Received(message: Message) | ServiceEnded | Stopped

  function Step(s: Feed, e: Event): Feed {
    match e
    case Connected => OnConnect(s)
    case Received(m) => OnMessage(s, m).0
    case ServiceEnded => s.(reconnect := false)
    case Stopped => s.(mode := Disconnected)
  }

  function Run(s: Feed, events: seq<Event>): Feed
    decreases |events|
  {
    if events == [] then s else Run(Step(s, events[0]), events[1..])
  }

  // ---------------------------------------------------------------- what every run keeps

  function BookAfter(opening: Book, accepted: seq<Diff>): Book
    decreases |accepted|
  {
    if accepted == [] then opening
    else ApplyDiff(BookAfter(opening, accepted[..|accepted| - 1]), accepted[|accepted| - 1])
  }

  function LastAfter(base: UInt64, accepted: seq<Diff>): UInt64 {
    if accepted == [] then base else accepted[|accepted| - 1].seqId
  }

  /** Each accepted diff follows the one before it, the first the snapshot. */
  ghost predicate Chain(base: UInt64, accepted: seq<Diff>)
    decreases |accepted|
  {
    accepted == [] ||
    (var n := |accepted| - 1;
     Chain(base, accepted[..n]) && Follows(LastAfter(base, accepted[..n]), accepted[n]))
  }

  /** Each accepted diff left the book its checksum promised. */
  ghost predicate Checked(opening: Book, accepted: seq<Diff>)
    decreases |accepted|
  {
    accepted == [] ||
    (var n := |accepted| - 1;
     Checked(opening, accepted[..n]) && ChecksumOk(BookAfter(opening, accepted[..n]), accepted[n]))
  }

  /** The consumer's fold of the callbacks is the local book. */
  ghost predicate ShownIsBook(emitted: seq<Callback>, b: Book) {
    forall key :: Shown(emitted, key) == SizeIn(b.Side(key.side), key.price)
  }

  ghost predicate SessionOk(s: Feed) {
    s.session.Since? ==>
      && Chain(s.session.base, s.session.accepted) && s.last == LastAfter(s.session.base, s.session.accepted)
      && Checked(s.session.opening, s.session.accepted)
      && s.book == BookAfter(s.session.opening, s.session.accepted)
      && ShownIsBook(s.emitted, s.book)
  }

  ghost predicate Inv(s: Feed) {
    SortedBook(s.book) && SessionOk(s) && (s.mode.Streaming? ==> s.session.Since?)
  }

  function DeltaOf(side: Side, l: Level, seqId: UInt64): Callback {
    OnDelta(Delta(side, l.price, l.size, l.count, seqId))
  }

  lemma {:induction false} DeltasLast(side: Side, levels: seq<Level>, seqId: UInt64, calls: seq<Callback>)
    requires levels != []
    ensures var n := |levels| - 1;
            calls + Deltas(side, levels, seqId) ==
            (calls + Deltas(side, levels[..n], seqId)) + [DeltaOf(side, levels[n], seqId)]
  {
  }

  /** A burst of deltas for one side shows what applying its levels leaves there. */
  lemma {:induction false} DeltasShown(side: Side, levels: seq<Level>, seqId: UInt64, calls: seq<Callback>,
                                       entries: seq<Entry>, price: int)
    requires Sorted(side, entries) && Shown(calls, Key(side, price)) == SizeIn(entries, price)
    ensures Shown(calls + Deltas(side, levels, seqId), Key(side, price))
            == SizeIn(ApplyLevels(side, entries, levels), price)
    decreases |levels|
  {
    if levels == [] {
      assert calls + Deltas(side, levels, seqId) == calls;
    } else {
      var n := |levels| - 1;
      DeltasShown(side, levels[..n], seqId, calls, entries, price);
      LevelsKeepSorted(side, entries, levels[..n]);
      LevelFacts(side, ApplyLevels(side, entries, levels[..n]), levels[n], price);
      DeltasLast(side, levels, seqId, calls);
      ShownAppend(calls + Deltas(side, levels[..n], seqId), DeltaOf(side, levels[n], seqId), Key(side, price));
    }
  }

  lemma {:induction false} DeltasElsewhere(side: Side, levels: seq<Level>, seqId: UInt64, calls: seq<Callback>, key: Key)
    requires key.side != side
    ensures Shown(calls + Deltas(side, levels, seqId), key) == Shown(calls, key)
    decreases |levels|
  {
    if levels == [] {
      assert calls + Deltas(side, levels, seqId) == calls;
    } else {
      var n := |levels| - 1;
      DeltasElsewhere(side, levels[..n], seqId, calls, key);
      DeltasLast(side, levels, seqId, calls);
      ShownAppend(calls + Deltas(side, levels[..n], seqId), DeltaOf(side, levels[n], seqId), key);
    }
  }

  lemma {:induction false} AcceptShown(s: Feed, d: Diff)
    requires SortedBook(s.book) && ShownIsBook(s.emitted, s.book)
    ensures ShownIsBook(Accept(s, d).emitted, Accept(s, d).book)
  {
    var half := s.emitted + Deltas(Bid, d.bids, d.seqId);
    forall key
      ensures Shown(half + Deltas(Ask, d.asks, d.seqId), key) ==
              SizeIn(ApplyDiff(s.book, d).Side(key.side), key.price)
    {
      if key.side.Bid? {
        DeltasShown(Bid, d.bids, d.seqId, s.emitted, s.book.bids, key.price);
        DeltasElsewhere(Ask, d.asks, d.seqId, half, key);
      } else {
        DeltasElsewhere(Bid, d.bids, d.seqId, s.emitted, key);
        DeltasShown(Ask, d.asks, d.seqId, half, s.book.asks, key.price);
      }
      assert Key(key.side, key.price) == key;
    }
  }

  lemma {:induction false} OpeningSize(side: Side, levels: seq<Level>, price: int)
    ensures Sorted(side, ApplyLevels(side, [], levels))
    ensures SizeIn(ApplyLevels(side, [], levels), price) == ListedSize(PriceLevels(levels), price)
    decreases |levels|
  {
    if levels != [] {
      var n := |levels| - 1;
      OpeningSize(side, levels[..n], price);
      LevelFacts(side, ApplyLevels(side, [], levels[..n]), levels[n], price);
      assert PriceLevels(levels)[..n] == PriceLevels(levels[..n]);
    }
  }

  lemma {:induction false} InstallKeepsInv(s: Feed, seqId: UInt64, bids: seq<Level>, asks: seq<Level>)
    ensures var t := Install(s, seqId, bids, asks);
            SortedBook(t.book) && SessionOk(t) && t.session.Since?
  {
    var t := Install(s, seqId, bids, asks);
    OpeningSize(Bid, bids, 0);
    OpeningSize(Ask, asks, 0);
    forall key
      ensures Shown(t.emitted, key) == SizeIn(t.book.Side(key.side), key.price)
    {
      ShownAppend(s.emitted, t.emitted[|s.emitted|], key);
      if key.side.Bid? { OpeningSize(Bid, bids, key.price); } else { OpeningSize(Ask, asks, key.price); }
    }
  }

  lemma {:induction false} AcceptKeepsInv(s: Feed, d: Diff)
    requires Inv(s) && Follows(s.last, d) && ChecksumOk(s.book, d)
    ensures Inv(Accept(s, d))
  {
    LevelsKeepSorted(Bid, s.book.bids, d.bids);
    LevelsKeepSorted(Ask, s.book.asks, d.asks);
    if s.session.Since? {
      AcceptShown(s, d);
      var longer := s.session.accepted + [d];
      assert longer[..|s.session.accepted|] == s.session.accepted;
    }
  }

  lemma {:induction false} ReplayKeepsInv(s: Feed, ds: seq<Diff>)
    requires Inv(s)
    ensures Inv(Replay(s, ds).0) && (s.session.Since? ==> Replay(s, ds).0.session.Since?)
    decreases |ds|
  {
    if ds != [] {
      if ds[0].seqId <= s.last {
        ReplayKeepsInv(s, ds[1..]);
      } else if Follows(s.last, ds[0]) && ChecksumOk(s.book, ds[0]) {
        AcceptKeepsInv(s, ds[0]);
        ReplayKeepsInv(Accept(s, ds[0]), ds[1..]);
      }
    }
  }

  lemma {:induction false} SnapshotKeepsInv(s: Feed, seqId: UInt64, bids: seq<Level>, asks: seq<Level>)
    requires Inv(s)
    ensures Inv(OnBookSnapshot(s, seqId, bids, asks).0)
  {
    InstallKeepsInv(s, seqId, bids, asks);
    ReplayKeepsInv(Install(s, seqId, bids, asks), s.buffer);
  }

  lemma {:induction false} MessageKeepsInv(s: Feed, m: Message)
    requires Inv(s)
    ensures Inv(OnMessage(s, m).0)
  {
    match m
    case BookSnapshot(seqId, bids, asks) => SnapshotKeepsInv(s, seqId, bids, asks);
    case Update(d) =>
      if s.mode.Streaming? && Follows(s.last, d) && ChecksumOk(s.book, d) { AcceptKeepsInv(s, d); }
    case _ =>
  }

  lemma {:induction false} StepKeepsInv(s: Feed, e: Event)
    requires Inv(s)
    ensures Inv(Step(s, e))
  {
    if e.Received? { MessageKeepsInv(s, e.message); }
  }

  /** Main result: after any events, what has been accepted since the snapshot is an unbroken chain, the
      live book is exactly that snapshot with the chain applied, every checksum along it was that of the
      book then installed, and the consumer's fold of the callbacks is that same book. */
  lemma {:induction false} ChainUnbroken(events: seq<Event>)
    ensures Inv(Run(FRESH, events))
  {
    RunKeepsInv(FRESH, events);
  }

  lemma {:induction false} RunKeepsInv(s: Feed, events: seq<Event>)
    requires Inv(s)
    ensures Inv(Run(s, events))
    decreases |events|
  {
    if events != [] {
      StepKeepsInv(s, events[0]);
      RunKeepsInv(Step(s, events[0]), events[1..]);
    }
  }

  /** What the chain means link by link. */
  lemma {:induction false} ChainLink(base: UInt64, opening: Book, accepted: seq<Diff>, i: nat)
    requires Chain(base, accepted) && Checked(opening, accepted) && i < |accepted|
    ensures var before := if i == 0 then base else accepted[i - 1].seqId;
            && (accepted[i].prevSeqId != 0 ==> accepted[i].prevSeqId == before)
            && (accepted[i].prevSeqId == 0 ==> accepted[i].seqId > before)
    ensures accepted[i].checksum.Some? ==>
              Checksum(BookAfter(opening, accepted[..i + 1])) == accepted[i].checksum.value
    decreases |accepted|
  {
    var n := |accepted| - 1;
    if i < n {
      ChainLink(base, opening, accepted[..n], i);
      assert accepted[..n][..i + 1] == accepted[..i + 1];
    } else {
      assert accepted[..i + 1] == accepted && accepted[..i + 1][..i] == accepted[..i];
    }
  }

  /** The live book always has the checksum its last diff carried. */
  lemma {:induction false} LiveChecksum(s: Feed)
    requires Inv(s) && s.session.Since? && s.session.accepted != []
    ensures var d := s.session.accepted[|s.session.accepted| - 1];
            s.last == d.seqId && (d.checksum.Some? ==> Checksum(s.book) == d.checksum.value)
  {
  }

  function Updates(ds: seq<Diff>): (es: seq<Event>)
    ensures |es| == |ds| && forall i :: 0 <= i < |es| ==> es[i] == Received(Update(ds[i]))
  {
    seq(|ds|, i requires 0 <= i < |ds| => Received(Update(ds[i])))
  }

  lemma {:induction false} ChainPrefix(base: UInt64, opening: Book, accepted: seq<Diff>, n: nat)
    requires n <= |accepted| && Chain(base, accepted) && Checked(opening, accepted)
    ensures Chain(base, accepted[..n]) && Checked(opening, accepted[..n])
    decreases |accepted|
  {
    if n < |accepted| {
      var init := accepted[..|accepted| - 1];
      ChainPrefix(base, opening, init, n);
      assert init[..n] == accepted[..n];
    } else {
      assert accepted[..n] == accepted;
    }
  }

  /** Conversely, while streaming nothing that continues the chain with the right checksums is refused: all
      of it is accepted, in order, without a resync. */
  lemma {:induction false} ValidChainAccepted(s: Feed, ds: seq<Diff>)
    requires Inv(s) && s.mode.Streaming?
    requires Chain(s.session.base, s.session.accepted + ds) && Checked(s.session.opening, s.session.accepted + ds)
    ensures var t := Run(s, Updates(ds));
            && t.mode.Streaming? && t.reconnect == s.reconnect
            && t.session == s.session.(accepted := s.session.accepted + ds)
    decreases |ds|
  {
    if ds == [] {
      assert s.session.accepted + ds == s.session.accepted;
    } else {
      NextIsAccepted(s, ds);
      AcceptKeepsInv(s, ds[0]);
      assert s.session.accepted + [ds[0]] + ds[1..] == s.session.accepted + ds;
      assert Updates(ds)[1..] == Updates(ds[1..]);
      ValidChainAccepted(Accept(s, ds[0]), ds[1..]);
    }
  }

  lemma {:induction false} NextIsAccepted(s: Feed, ds: seq<Diff>)
    requires Inv(s) && s.mode.Streaming? && ds != []
    requires Chain(s.session.base, s.session.accepted + ds) && Checked(s.session.opening, s.session.accepted + ds)
    ensures Follows(s.last, ds[0]) && ChecksumOk(s.book, ds[0])
    ensures Step(s, Received(Update(ds[0]))) == Accept(s, ds[0])
  {
    var done := s.session.accepted;
    assert (done + ds)[..|done| + 1] == done + [ds[0]];
    ChainPrefix(s.session.base, s.session.opening, done + ds, |done| + 1);
    NextLink(s.session.base, s.session.opening, done, ds[0]);
  }

  lemma {:induction false} NextLink(base: UInt64, opening: Book, done: seq<Diff>, d: Diff)
    requires Chain(base, done + [d]) && Checked(opening, done + [d])
    ensures Follows(LastAfter(base, done), d) && ChecksumOk(BookAfter(opening, done), d)
  {
    assert (done + [d])[..|done|] == done;
  }

  // ---------------------------------------------------------------- the handler as an object

  method AppendRow(b: Book, i: nat, text: Bytes) returns (oss: Bytes)
    ensures oss == WithRow(b, i, text)
  {
    oss := text;
    if i > 0 { oss := oss + [COLON]; }
    if i < |b.bids| { oss := oss + Field(b.bids[i]); }
    if i < |b.asks| {
      if |oss| > 0 { oss := oss + [COLON]; }
      oss := oss + Field(b.asks[i]);
    }
  }

  /** The text the checksum is taken of, row by row. */
  method ChecksumText(b: Book) returns (oss: Bytes)
    ensures oss == Text(b)
  {
    oss := [];
    var i := 0;
    while i < CHECKSUM_LEVELS && (i < |b.bids| || i < |b.asks|)
      invariant i <= CHECKSUM_LEVELS && TextFrom(b, i, oss) == Text(b)
    {
      oss := AppendRow(b, i, oss);
      i := i + 1;
    }
  }

  method ApplySide(side: Side, entries: seq<Entry>, levels: seq<Level>) returns (r: seq<Entry>)
    ensures r == ApplyLevels(side, entries, levels)
  {
    r := entries;
    for i := 0 to |levels|
      invariant r == ApplyLevels(side, entries, levels[..i])
    {
      var l := levels[i];
      assert levels[..i + 1][..i] == levels[..i];
      if l.size == 0.0 {
        r := Erase(r, l.price);
      } else {
        r := Put(side, r, Entry(l.price, l.priceText, l.sizeText, l.size));
      }
    }
    assert levels[..|levels|] == levels;
  }

  class OkxFeedHandler {
    var mode: Mode
    var last: UInt64
    var buffer: seq<Diff>
    var bids: seq<Entry>
    var asks: seq<Entry>
    var reconnect: bool
    var emitted: seq<Callback>
    ghost var session: Session

    ghost function View(): Feed
      reads this
    {
      Feed(mode, last, buffer, Book(bids, asks), reconnect, emitted, session)
    }

    constructor ()
      ensures View() == FRESH
    {
      mode, last, buffer, bids, asks, reconnect, emitted := Disconnected, 0, [], [], [], false, [];
      session := NoSnapshot;
    }

    method TriggerResnapshot()
      modifies this
      ensures View() == Resync(old(View()))
    {
      buffer := [];
      mode := Buffering;
      reconnect := true;
    }

    method ValidateDeltaSequence(d: Diff) returns (ok: bool)
      ensures ok <==> Follows(last, d)
    {
      if d.prevSeqId != 0 { return d.prevSeqId == last; }
      return d.seqId > last;
    }

    /** Tries the diff on copies of the two sides and compares the checksum it would leave. */
    method ValidateChecksum(d: Diff) returns (ok: bool)
      ensures ok <==> ChecksumOk(Book(bids, asks), d)
    {
      if d.checksum.None? { return true; }
      var testBids := ApplySide(Bid, bids, d.bids);
      var testAsks := ApplySide(Ask, asks, d.asks);
      var text := ChecksumText(Book(testBids, testAsks));
      var local := Crc32Bytes(text);
      return Signed(local) == d.checksum.value;
    }

    method EmitLevels(side: Side, levels: seq<Level>, seqId: UInt64)
      modifies this`emitted
      ensures emitted == old(emitted) + Deltas(side, levels, seqId)
    {
      for i := 0 to |levels|
        invariant emitted == old(emitted) + Deltas(side, levels, seqId)[..i]
      {
        emitted := emitted + [OnDelta(Delta(side, levels[i].price, levels[i].size, levels[i].count, seqId))];
      }
    }

    method ProcessDelta(d: Diff)
      modifies this
      ensures View() == Accept(old(View()), d)
    {
      last := d.seqId;
      bids := ApplySide(Bid, bids, d.bids);
      asks := ApplySide(Ask, asks, d.asks);
      EmitLevels(Bid, d.bids, d.seqId);
      EmitLevels(Ask, d.asks, d.seqId);
      session := if session.Since? then session.(accepted := session.accepted + [d]) else session;
    }

    method ApplyBufferedDeltas() returns (outcome: Outcome)
      modifies this
      ensures (View(), outcome) == Replay(old(View()), old(buffer))
    {
      ghost var start := View();
      for i := 0 to |buffer|
        invariant buffer == start.buffer && Replay(View(), buffer[i..]) == Replay(start, start.buffer)
      {
        var d := buffer[i];
        assert buffer[i..][0] == d && buffer[i..][1..] == buffer[i + 1..];
        if d.seqId > last {
          var follows := ValidateDeltaSequence(d);
          if !follows {
            buffer := [];
            return SequenceGap;
          }
          var matches := ValidateChecksum(d);
          if !matches {
            buffer := [];
            return BookCorrupted;
          }
          ProcessDelta(d);
        }
      }
      assert buffer[|buffer|..] == [];
      buffer := [];
      return Success;
    }

    method InstallBook(seqId: UInt64, newBids: seq<Level>, newAsks: seq<Level>)
      modifies this
      ensures View() == Install(old(View()), seqId, newBids, newAsks)
    {
      bids := ApplySide(Bid, [], newBids);
      asks := ApplySide(Ask, [], newAsks);
      last := seqId;
      session := Since(seqId, Book(bids, asks), []);
      emitted := emitted + [OnSnapshot(Snapshot(seqId, PriceLevels(newBids), PriceLevels(newAsks), None, 0))];
    }

    method ProcessSnapshot(seqId: UInt64, newBids: seq<Level>, newAsks: seq<Level>) returns (outcome: Outcome)
      modifies this
      ensures (View(), outcome) == OnBookSnapshot(old(View()), seqId, newBids, newAsks)
    {
      if newBids == [] || newAsks == [] {
        TriggerResnapshot();
        return BookCorrupted;
      }
      InstallBook(seqId, newBids, newAsks);
      outcome := ApplyBufferedDeltas();
      if outcome != Success {
        TriggerResnapshot();
        return BookCorrupted;
      }
      mode := Streaming;
    }

    method ProcessUpdate(d: Diff) returns (outcome: Outcome)
      modifies this
      ensures (View(), outcome) == OnUpdate(old(View()), d)
    {
      if mode == Buffering || mode == Disconnected {
        if |buffer| < MAX_BUFFER_SIZE { buffer := buffer + [d]; } else { TriggerResnapshot(); }
        return Success;
      }
      var follows := ValidateDeltaSequence(d);
      if !follows {
        TriggerResnapshot();
        return SequenceGap;
      }
      var matches := ValidateChecksum(d);
      if !matches {
        TriggerResnapshot();
        return BookCorrupted;
      }
      ProcessDelta(d);
      return Success;
    }

    method ProcessMessage(m: Message) returns (outcome: Outcome)
      modifies this
      ensures (View(), outcome) == OnMessage(old(View()), m)
    {
      match m
      case Ignored => outcome := Success;
      case ErrorEvent => TriggerResnapshot(); outcome := ConnectionLost;
      case BadSnapshot => TriggerResnapshot(); outcome := BookCorrupted;
      case BookSnapshot(seqId, newBids, newAsks) => outcome := ProcessSnapshot(seqId, newBids, newAsks);
      case Update(d) => outcome := ProcessUpdate(d);
    }

    method Connect()
      modifies this
      ensures View() == OnConnect(old(View()))
    {
      mode, buffer, bids, asks, last, reconnect := Buffering, [], [], [], 0, false;
      session := NoSnapshot;
    }

    method Handle(e: Event)
      modifies this
      ensures View() == Step(old(View()), e)
    {
      match e
      case Connected => Connect();
      case Received(m) => var outcome := ProcessMessage(m);
      case ServiceEnded => reconnect := false;
      case Stopped => mode := Disconnected;
    }

    /** The handler through any events: with ChainUnbroken, everything that holds of every run. */
    method HandleAll(events: seq<Event>)
      requires View() == FRESH
      modifies this
      ensures View() == Run(FRESH, events) && Inv(View())
    {
      ChainUnbroken(events);
      for i := 0 to |events|
        invariant Run(View(), events[i..]) == Run(FRESH, events)
      {
        assert events[i..][0] == events[i] && events[i..][1..] == events[i + 1..];
        Handle(events[i]);
      }
      assert events[|events|..] == [];
    }
  }
}
