/** The two ends of the order-book ring as objects: the publisher that fills slots and the bridge that
    turns them back into rows, called one at a time. */
module LobBridge {
  import opened Common
  import opened LobRing

  const LEVELS: nat := 10
  const SLOT_WORDS: nat := 65
  const SLOT_BYTES: nat := 440
  const SYMBOL_BYTES: nat := 15
  const MAGIC: string := "TRTLOB01"

  datatype Level = Level(price: real, size: real, orders: nat)

  datatype Tick = Tick(exchange: nat, symbol: string, stamp: int, mid: real, bids: seq<Level>, asks: seq<Level>,
                       direction: nat)

  // ---------------------------------------------------------------- the slot layout

  /** A C string ends at its first NUL. */
  function UpToNul(s: string): (r: string)
    ensures r <= s
  {
    if s == [] || s[0] == '\0' then [] else [s[0]] + UpToNul(s[1..])
  }

  function Clip(s: string): string {
    var t := UpToNul(s);
    if |t| < SYMBOL_BYTES then t else t[..SYMBOL_BYTES - 1]
  }

  function Padded(s: string): string {
    var t := Clip(s);
    t + seq(SYMBOL_BYTES - |t|, _ => '\0')
  }

  /** Missing levels are all zero. */
  function LevelAt(levels: seq<Level>, i: nat): Level {
    if i < |levels| then levels[i] else Level(0.0, 0.0, 0)
  }

  /** The word at position `k` of a slot holding this tick. */
  function WordAt(t: Tick, k: nat): Word {
    if k == 0 then Int(t.exchange)
    else if k == 1 then Label(Padded(t.symbol))
    else if k == 2 then Int(t.stamp)
    else if k == 3 then Real(t.mid)
    else if k < 14 then Real(LevelAt(t.bids, k - 4).price)
    else if k < 24 then Real(LevelAt(t.bids, k - 14).size)
    else if k < 34 then Real(LevelAt(t.asks, k - 24).price)
    else if k < 44 then Real(LevelAt(t.asks, k - 34).size)
    else if k < 54 then Int(LevelAt(t.bids, k - 44).orders)
    else if k < 64 then Int(LevelAt(t.asks, k - 54).orders)
    else Int(t.direction)
  }

  ghost predicate Encodes(words: Words, t: Tick) {
    |words| == SLOT_WORDS && forall k :: 0 <= k < |words| ==> words[k] == WordAt(t, k)
  }

  // ---------------------------------------------------------------- rows

  datatype Row = Row(stamp: int, exchange: string, symbol: string, bestBid: real, bestAsk: real, direction: int,
                     bids: seq<Level>, asks: seq<Level>)

  function ExchangeName(id: int): string {
    match id
    case 0 => "BINANCE"
    case 1 => "OKX"
    case 2 => "COINBASE"
    case 3 => "KRAKEN"
    case _ => "UNKNOWN"
  }

  function TopLevels(levels: seq<Level>): seq<Level> {
    seq(LEVELS, i requires i >= 0 => LevelAt(levels, i))
  }

  /** The row a tick should come out as. */
  function RowOf(t: Tick): Row {
    Row(t.stamp, ExchangeName(t.exchange), Clip(t.symbol), LevelAt(t.bids, 0).price, LevelAt(t.asks, 0).price,
        t.direction, TopLevels(t.bids), TopLevels(t.asks))
  }

  predicate Displayable(bid: real, ask: real) {
    !(bid <= 0.0 || ask <= 0.0 || ask <= bid)
  }

  /** The rows a reader is owed for these ticks: one per displayable tick, in order. */
  function RowsOf(ticks: seq<Tick>): seq<Row> {
    if ticks == [] then []
    else
      var t := ticks[|ticks| - 1];
      RowsOf(ticks[..|ticks| - 1]) +
      if Displayable(LevelAt(t.bids, 0).price, LevelAt(t.asks, 0).price) then [RowOf(t)] else []
  }

  lemma {:induction false} UpToNulPadded(t: string, n: nat)
    requires UpToNul(t) == t
    ensures UpToNul(t + seq(n, _ => '\0')) == t
    decreases |t|
  {
    var p := t + seq(n, _ => '\0');
    if t != [] {
      assert [t[0]] + UpToNul(t[1..]) == t;
      assert UpToNul(t[1..]) == t[1..];
      UpToNulPadded(t[1..], n);
      assert p[1..] == t[1..] + seq(n, _ => '\0');
    }
  }

  lemma {:induction false} UpToNulPrefix(s: string, n: nat)
    requires n <= |UpToNul(s)|
    ensures UpToNul(UpToNul(s)[..n]) == UpToNul(s)[..n]
    decreases n
  {
    if n > 0 {
      UpToNulPrefix(s[1..], n - 1);
      assert UpToNul(s)[..n][1..] == UpToNul(s[1..])[..n - 1];
    }
  }

  /** The reader's cut at the first NUL undoes the publisher's padding. */
  lemma {:induction false} SymbolRoundTrip(s: string)
    ensures |Padded(s)| == SYMBOL_BYTES && UpToNul(Padded(s)) == Clip(s)
  {
    var t := UpToNul(s);
    UpToNulPrefix(s, |Clip(s)|);
    assert t[..|Clip(s)|] == Clip(s);
    UpToNulPadded(Clip(s), SYMBOL_BYTES - |Clip(s)|);
  }

  function RealOf(w: Word): real {
    if w.Real? then w.value else 0.0
  }

  function IntOf(w: Word): int {
    if w.Int? then w.n else 0
  }

  function TextOf(w: Word): string {
    if w.Label? then w.text else ""
  }

  function LevelFrom(words: Words, prices: nat, sizes: nat, counts: nat, i: nat): Level
    requires prices + i < |words| && sizes + i < |words| && counts + i < |words|
  {
    var orders := IntOf(words[counts + i]);
    Level(RealOf(words[prices + i]), RealOf(words[sizes + i]), if orders < 0 then 0 else orders)
  }

  function LevelsFrom(words: Words, prices: nat, sizes: nat, counts: nat): seq<Level>
    requires |words| == SLOT_WORDS && prices <= 24 && sizes <= 34 && counts <= 54
  {
    seq(LEVELS, i requires 0 <= i < LEVELS => LevelFrom(words, prices, sizes, counts, i))
  }

  function Decode(words: Words): Row
    requires |words| == SLOT_WORDS
  {
    Row(IntOf(words[2]), ExchangeName(IntOf(words[0])), UpToNul(TextOf(words[1])), RealOf(words[4]),
        RealOf(words[24]), IntOf(words[64]), LevelsFrom(words, 4, 14, 44), LevelsFrom(words, 24, 34, 54))
  }

  /** Reading a slot back gives the tick's row: symbol cut to fourteen bytes, ten levels a side. */
  lemma {:induction false} SlotRoundTrip(words: Words, t: Tick)
    requires Encodes(words, t)
    ensures Decode(words) == RowOf(t)
  {
    SymbolRoundTrip(t.symbol);
    forall i | 0 <= i < LEVELS
      ensures LevelsFrom(words, 4, 14, 44)[i] == TopLevels(t.bids)[i]
    {
      assert words[4 + i] == WordAt(t, 4 + i) && words[14 + i] == WordAt(t, 14 + i)
          && words[44 + i] == WordAt(t, 44 + i);
    }
    forall i | 0 <= i < LEVELS
      ensures LevelsFrom(words, 24, 34, 54)[i] == TopLevels(t.asks)[i]
    {
      assert words[24 + i] == WordAt(t, 24 + i) && words[34 + i] == WordAt(t, 34 + i)
          && words[54 + i] == WordAt(t, 54 + i);
    }
  }

  lemma {:induction false} RowsOfAppend(ticks: seq<Tick>, t: Tick)
    ensures RowsOf(ticks + [t]) ==
            RowsOf(ticks) + if Displayable(LevelAt(t.bids, 0).price, LevelAt(t.asks, 0).price) then [RowOf(t)] else []
  {
    assert (ticks + [t])[..|ticks|] == ticks;
  }

  lemma {:induction false} RowsOfConcat(a: seq<Tick>, b: seq<Tick>)
    ensures RowsOf(a + b) == RowsOf(a) + RowsOf(b)
    decreases |b|
  {
    if b == [] {
      assert a + b == a;
    } else {
      var n := |b| - 1;
      RowsOfConcat(a, b[..n]);
      assert (a + b)[..|a| + n] == a + b[..n];
    }
  }

  // ---------------------------------------------------------------- what a reader gets, in the ticks' own terms

  /** Both sides have a best price, the bid is positive and the ask above it. */
  predicate Quoted(t: Tick) {
    |t.bids| > 0 && |t.asks| > 0 && 0.0 < t.bids[0].price < t.asks[0].price
  }

  function QuotedOnes(ticks: seq<Tick>): seq<Tick>
    decreases |ticks|
  {
    if ticks == [] then []
    else QuotedOnes(ticks[..|ticks| - 1]) + if Quoted(ticks[|ticks| - 1]) then [ticks[|ticks| - 1]] else []
  }

  /** The first ten levels, and zeros where the tick has fewer. */
  ghost predicate TenOf(shown: seq<Level>, levels: seq<Level>) {
    |shown| == 10 && forall k :: 0 <= k < 10 ==> shown[k] == if k < |levels| then levels[k] else Level(0.0, 0.0, 0)
  }

  ghost predicate IsRowOf(r: Row, t: Tick)
    requires Quoted(t)
  {
    && r.stamp == t.stamp && r.direction == t.direction
    && r.bestBid == t.bids[0].price && r.bestAsk == t.asks[0].price
    && TenOf(r.bids, t.bids) && TenOf(r.asks, t.asks)
    && r.exchange == (if t.exchange < 4 then ["BINANCE", "OKX", "COINBASE", "KRAKEN"][t.exchange] else "UNKNOWN")
    && r.symbol <= t.symbol && |r.symbol| <= 14
    && (|t.symbol| <= 14 && '\0' !in t.symbol ==> r.symbol == t.symbol)
  }

  lemma {:induction false} NoNul(s: string)
    requires '\0' !in s
    ensures UpToNul(s) == s
    decreases |s|
  {
    if s != [] { NoNul(s[1..]); }
  }

  lemma {:induction false} RowIsOf(t: Tick)
    requires Quoted(t)
    ensures IsRowOf(RowOf(t), t)
  {
    if '\0' !in t.symbol { NoNul(t.symbol); }
    PrefixOf(t.symbol);
  }

  lemma {:induction false} PrefixOf(s: string)
    ensures Clip(s) <= s && |Clip(s)| <= 14
  {
    var u := UpToNul(s);
    assert u <= s;
    assert s[..|u|] == u;
    assert s[..|Clip(s)|] == Clip(s);
  }

  /** The rows owed for these ticks are, in order, one for each that quotes a positive bid below its ask, with its
      stamp, names, direction and ten levels a side. */
  lemma {:induction false} RowsAreQuoted(ticks: seq<Tick>)
    ensures |RowsOf(ticks)| == |QuotedOnes(ticks)|
    ensures forall i :: 0 <= i < |QuotedOnes(ticks)| ==>
              Quoted(QuotedOnes(ticks)[i]) && IsRowOf(RowsOf(ticks)[i], QuotedOnes(ticks)[i])
    decreases |ticks|
  {
    if ticks != [] {
      var t := ticks[|ticks| - 1];
      RowsAreQuoted(ticks[..|ticks| - 1]);
      assert Displayable(LevelAt(t.bids, 0).price, LevelAt(t.asks, 0).price) <==> Quoted(t);
      if Quoted(t) { RowIsOf(t); }
    }
  }

  // ---------------------------------------------------------------- the mapped file

  /** The mapped file: its header and its slots; `published` is every tick since the header was written. */
  class SharedFile {
    var magic: string
    var slotSize: nat
    var capacity: nat
    var writeSeq: nat
    const slots: array<Words>
    ghost var published: seq<Tick>

    /** What the reader checks before it trusts the slots. */
    predicate HeaderOk()
      reads this
    {
      !(magic != MAGIC || slotSize != SLOT_BYTES || capacity <= 0)
    }

    ghost predicate Valid()
      reads this, slots
    {
      HeaderOk() ==>
        && slots.Length == capacity && |published| == writeSeq
        && (forall i :: 0 <= i < slots.Length ==> |slots[i]| == SLOT_WORDS)
        && forall i :: Max(0, writeSeq - capacity) <= i < writeSeq ==> Encodes(slots[i % capacity], published[i])
    }

    constructor (length: nat, blank: Words)
      requires length > 0 && |blank| == SLOT_WORDS
      ensures Valid() && HeaderOk() && published == [] && capacity == length && fresh(slots)
    {
      magic, slotSize, capacity, writeSeq, published := MAGIC, SLOT_BYTES, length, 0, [];
      slots := new Words[length](_ => blank);
    }
  }

  class LobPublisher {
    const file: SharedFile

    constructor (mapped: SharedFile)
      ensures file == mapped
    {
      file := mapped;
    }

    method PutWord(at: nat, k: nat, word: Word)
      requires at < file.slots.Length && k < |file.slots[at]|
      modifies file.slots
      ensures file.slots[at] == old(file.slots[at])[k := word]
      ensures forall i :: 0 <= i < file.slots.Length && i != at ==> file.slots[i] == old(file.slots[i])
    {
      file.slots[at] := file.slots[at][k := word];
    }

    /** Copies level `i` of both sides into the slot. */
    method PutLevel(at: nat, i: nat, bid: Level, ask: Level)
      requires at < file.slots.Length && |file.slots[at]| == SLOT_WORDS && i < LEVELS
      modifies file.slots
      ensures file.slots[at] == old(file.slots[at])
                [4 + i := Real(bid.price)][14 + i := Real(bid.size)][24 + i := Real(ask.price)]
                [34 + i := Real(ask.size)][44 + i := Int(bid.orders)][54 + i := Int(ask.orders)]
      ensures forall j :: 0 <= j < file.slots.Length && j != at ==> file.slots[j] == old(file.slots[j])
    {
      PutWord(at, 4 + i, Real(bid.price));
      PutWord(at, 14 + i, Real(bid.size));
      PutWord(at, 24 + i, Real(ask.price));
      PutWord(at, 34 + i, Real(ask.size));
      PutWord(at, 44 + i, Int(bid.orders));
      PutWord(at, 54 + i, Int(ask.orders));
    }

    /** The words written once the first `n` levels of each side are in. */
    ghost predicate Filled(words: Words, t: Tick, n: nat) {
      |words| == SLOT_WORDS &&
      forall k :: 0 <= k < |words| && k != 64 && (k < 4 || (k - 4) % LEVELS < n) ==> words[k] == WordAt(t, k)
    }

    method Fill(at: nat, t: Tick)
      requires at < file.slots.Length && |file.slots[at]| == SLOT_WORDS
      modifies file.slots
      ensures Encodes(file.slots[at], t)
      ensures forall j :: 0 <= j < file.slots.Length && j != at ==> file.slots[j] == old(file.slots[j])
    {
      PutWord(at, 0, Int(t.exchange));
      PutWord(at, 1, Label(Padded(t.symbol)));
      PutWord(at, 2, Int(t.stamp));
      PutWord(at, 3, Real(t.mid));
      for i := 0 to LEVELS
        invariant Filled(file.slots[at], t, i)
        invariant forall j :: 0 <= j < file.slots.Length && j != at ==> file.slots[j] == old(file.slots[j])
      {
        ghost var was := file.slots[at];
        PutLevel(at, i, LevelAt(t.bids, i), LevelAt(t.asks, i));
        FillOne(was, file.slots[at], t, i);
      }
      PutWord(at, 64, Int(t.direction));
    }

    lemma {:induction false} FillOne(was: Words, words: Words, t: Tick, i: nat)
      requires Filled(was, t, i) && i < LEVELS
      requires var bid, ask := LevelAt(t.bids, i), LevelAt(t.asks, i);
               words == was[4 + i := Real(bid.price)][14 + i := Real(bid.size)][24 + i := Real(ask.price)]
                           [34 + i := Real(ask.size)][44 + i := Int(bid.orders)][54 + i := Int(ask.orders)]
      ensures Filled(words, t, i + 1)
    {
    }

    /** Overwrites the oldest slot and counts it. */
    method Publish(t: Tick)
      requires file.Valid() && file.HeaderOk()
      modifies file, file.slots
      ensures file.Valid() && file.HeaderOk() && file.capacity == old(file.capacity)
      ensures file.published == old(file.published) + [t]
    {
      ghost var w := file.writeSeq;
      var at := file.writeSeq % file.capacity;
      Fill(at, t);
      forall i | Max(0, w + 1 - file.capacity) <= i < w
        ensures i % file.capacity != at
      {
        SlotsApart(w, i, file.capacity);
      }
      file.writeSeq := file.writeSeq + 1;
      file.published := file.published + [t];
    }
  }

  class CoreBridge {
    const file: SharedFile
    var mapped: bool
    var lastSeq: nat

    ghost predicate Valid()
      reads this, file, file.slots
    {
      file.Valid() && (mapped && file.HeaderOk() ==> lastSeq <= file.writeSeq)
    }

    constructor (shared: SharedFile)
      requires shared.Valid()
      ensures Valid() && file == shared && !mapped
    {
      file, mapped, lastSeq := shared, false, 0;
    }

    /** Maps the file if its header is right, and starts at the present counter. */
    method Open(exists_: bool) returns (ok: bool)
      requires Valid()
      modifies this
      ensures Valid() && mapped == ok
      ensures ok <==> old(mapped) || (exists_ && file.HeaderOk())
      ensures lastSeq == if ok && !old(mapped) then file.writeSeq else old(lastSeq)
    {
      if mapped { return true; }
      if !exists_ { return false; }
      if file.magic != MAGIC || file.slotSize != SLOT_BYTES || file.capacity <= 0 { return false; }
      mapped, lastSeq := true, file.writeSeq;
      return true;
    }

    method Close()
      requires Valid()
      modifies this
      ensures Valid() && !mapped && lastSeq == 0
    {
      mapped, lastSeq := false, 0;
    }

    /** The rows of exactly the displayable ticks published since the last call that are still in the ring,
        in order; a bridge that was not open sees nothing older than its opening. */
    method ReadNewTicks(exists_: bool) returns (rows: seq<Row>)
      requires Valid()
      modifies this
      ensures Valid()
      ensures mapped <==> old(mapped) || (exists_ && file.HeaderOk())
      ensures lastSeq == if mapped && file.HeaderOk() then file.writeSeq else old(lastSeq)
      ensures rows == if old(mapped) && file.HeaderOk()
                      then RowsOf(file.published[StartOf(old(lastSeq), file.writeSeq, file.capacity)..]) else []
    {
      if !mapped {
        var ok := Open(exists_);
        if !ok { return []; }
      }
      if file.magic != MAGIC || file.slotSize != SLOT_BYTES || file.capacity <= 0 { return []; }
      var start := lastSeq;
      var minValid := if file.writeSeq < file.capacity then 0 else file.writeSeq - file.capacity;
      if start < minValid { start := minValid; }
      rows := ReadSlots(start, file.writeSeq);
      assert file.published[start..file.writeSeq] == file.published[start..];
      lastSeq := file.writeSeq;
    }

    method ReadSlots(start: nat, writeSeq: nat) returns (rows: seq<Row>)
      requires file.Valid() && file.HeaderOk() && writeSeq == file.writeSeq
      requires writeSeq - file.capacity <= start <= writeSeq
      ensures rows == RowsOf(file.published[start..writeSeq])
    {
      rows := [];
      for s := start to writeSeq
        invariant rows == RowsOf(file.published[start..s])
      {
        var words := file.slots[s % file.capacity];
        ghost var t := file.published[s];
        assert file.published[start..s + 1] == file.published[start..s] + [t];
        RowsOfAppend(file.published[start..s], t);
        SlotRoundTrip(words, t);
        if !(RealOf(words[4]) <= 0.0 || RealOf(words[24]) <= 0.0 || RealOf(words[24]) <= RealOf(words[4])) {
          rows := rows + [Decode(words)];
        }
      }
    }
  }

  function Flatten(batches: seq<seq<Tick>>): seq<Tick> {
    if batches == [] then [] else Flatten(batches[..|batches| - 1]) + batches[|batches| - 1]
  }

  method PublishAll(publisher: LobPublisher, ticks: seq<Tick>)
    requires publisher.file.Valid() && publisher.file.HeaderOk()
    modifies publisher.file, publisher.file.slots
    ensures publisher.file.Valid() && publisher.file.HeaderOk()
    ensures publisher.file.capacity == old(publisher.file.capacity)
    ensures publisher.file.published == old(publisher.file.published) + ticks
  {
    for i := 0 to |ticks|
      invariant publisher.file.Valid() && publisher.file.HeaderOk()
      invariant publisher.file.capacity == old(publisher.file.capacity)
      invariant publisher.file.published == old(publisher.file.published) + ticks[..i]
    {
      publisher.Publish(ticks[i]);
      assert ticks[..i] + [ticks[i]] == ticks[..i + 1];
    }
    assert ticks[..|ticks|] == ticks;
  }

  /** A reader that polls after every batch, none longer than the ring, gets a row for every displayable
      tick, once and in order. */
  method PublishAndPoll(publisher: LobPublisher, bridge: CoreBridge, batches: seq<seq<Tick>>)
    returns (rows: seq<Row>)
    requires publisher.file == bridge.file && bridge.Valid() && bridge.mapped && bridge.file.HeaderOk()
    requires bridge.lastSeq == bridge.file.writeSeq
    requires forall i :: 0 <= i < |batches| ==> |batches[i]| <= bridge.file.capacity
    modifies bridge, bridge.file, bridge.file.slots
    ensures bridge.Valid() && bridge.lastSeq == bridge.file.writeSeq
    ensures rows == RowsOf(Flatten(batches))
  {
    rows := [];
    for i := 0 to |batches|
      invariant bridge.Valid() && bridge.mapped && bridge.file.HeaderOk()
      invariant bridge.file.capacity == old(bridge.file.capacity) && bridge.lastSeq == bridge.file.writeSeq
      invariant rows == RowsOf(Flatten(batches[..i]))
    {
      ghost var before := bridge.file.published;
      PublishAll(publisher, batches[i]);
      var more := bridge.ReadNewTicks(true);
      assert bridge.file.published[|before|..] == batches[i];
      assert batches[..i + 1][..i] == batches[..i];
      RowsOfConcat(Flatten(batches[..i]), batches[i]);
      rows := rows + more;
    }
    assert batches[..|batches|] == batches;
  }
}
