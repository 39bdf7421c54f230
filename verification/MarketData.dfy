/** The values that feeds hand to the order book, in integer price ticks, and the
    exchange they are supposed to mirror: a log of absolute-size level updates. */
module MarketData {
  import opened Common

  datatype Outcome =
    | Success
    | InvalidSequence
    | InvalidPrice
    | InvalidSize
    | SequenceGap
    | BookCorrupted
    | ConnectionLost

  datatype PriceLevel = PriceLevel(price: int, size: real, count: nat)

  datatype Delta = Delta(side: Side, price: int, size: real, count: nat, sequence: UInt64)

  /** `checksum` is what the venue sent, `localChecksum` what the bytes of the levels hash to. */
  datatype Snapshot = Snapshot(
    sequence: UInt64, bids: seq<PriceLevel>, asks: seq<PriceLevel>,
    checksum: Option<nat>, localChecksum: nat)
  {
    function Levels(side: Side): seq<PriceLevel> {
      if side.Bid? then bids else asks
    }

    predicate ChecksumMatches() {
      checksum.Some? ==> checksum.value == localChecksum
    }
  }

  /** One call out of a feed into its consumer. */
  datatype Callback = OnSnapshot(snapshot: Snapshot) | OnDelta(delta: Delta)

  // ---------------------------------------------------------------- the exchange

  datatype Key = Key(side: Side, price: int)

  /** Update id i (counted from 1) sets the levels log[i - 1] to absolute sizes. */
  type Log = seq<map<Key, real>>

  ghost predicate ValidLog(log: Log) {
    forall i, k :: 0 <= i < |log| && k in log[i] ==> log[i][k] >= 0.0
  }

  /** Size resting at a level once all updates up to and including id n have happened. */
  ghost function SizeAt(log: Log, n: nat, key: Key): real
    requires n <= |log|
  {
    if n == 0 then 0.0
    else if key in log[n - 1] then log[n - 1][key]
    else SizeAt(log, n - 1, key)
  }

  lemma {:induction false} SizeAtUntouched(log: Log, lo: nat, hi: nat, key: Key)
    requires lo <= hi <= |log|
    requires forall i :: lo <= i < hi ==> key !in log[i]
    ensures SizeAt(log, hi, key) == SizeAt(log, lo, key)
    decreases hi
  {
    if lo < hi {
      SizeAtUntouched(log, lo, hi - 1, key);
    }
  }

  lemma {:induction false} SizeAtNonNegative(log: Log, n: nat, key: Key)
    requires ValidLog(log) && n <= |log|
    ensures SizeAt(log, n, key) >= 0.0
  {
    if n > 0 && key !in log[n - 1] {
      SizeAtNonNegative(log, n - 1, key);
    }
  }

  // ---------------------------------------------------------------- the consumer

  /** Size a list of levels gives to a price; a later entry overrides an earlier one. */
  function ListedSize(levels: seq<PriceLevel>, price: int): real {
    if levels == [] then 0.0
    else if levels[|levels| - 1].price == price then levels[|levels| - 1].size
    else ListedSize(levels[..|levels| - 1], price)
  }

  ghost predicate Lists(levels: seq<PriceLevel>, price: int) {
    exists i :: 0 <= i < |levels| && levels[i].price == price
  }

  /** Most recent size the callbacks gave to a level: what a consumer that believes them shows. */
  function Shown(calls: seq<Callback>, key: Key): real {
    if calls == [] then 0.0
    else
      match calls[|calls| - 1]
      case OnSnapshot(s) => ListedSize(s.Levels(key.side), key.price)
      case OnDelta(d) =>
        if Key(d.side, d.price) == key then d.size else Shown(calls[..|calls| - 1], key)
  }

  lemma {:induction false} ShownAppend(calls: seq<Callback>, call: Callback, key: Key)
    ensures Shown(calls + [call], key) ==
            match call
            case OnSnapshot(s) => ListedSize(s.Levels(key.side), key.price)
            case OnDelta(d) => if Key(d.side, d.price) == key then d.size else Shown(calls, key)
  {
    assert (calls + [call])[..|calls|] == calls;
  }

  /** After a burst of deltas that all agree on a level's size, the level has that size, and a
      level no delta names keeps what it had. */
  lemma {:induction false} ShownAfterDeltas(calls: seq<Callback>, burst: seq<Callback>, key: Key, size: real)
    requires forall i :: 0 <= i < |burst| ==> burst[i].OnDelta?
    requires forall i :: 0 <= i < |burst| && Names(burst[i], key) ==> burst[i].delta.size == size
    ensures Shown(calls + burst, key) ==
            if exists i :: 0 <= i < |burst| && Names(burst[i], key) then size else Shown(calls, key)
  {
    if burst == [] {
      assert calls + burst == calls;
    } else {
      var init := burst[..|burst| - 1];
      var call := burst[|burst| - 1];
      assert calls + burst == (calls + init) + [call];
      ShownAppend(calls + init, call, key);
      if !Names(call, key) {
        ShownAfterDeltas(calls, init, key, size);
        assert forall i :: 0 <= i < |init| ==> init[i] == burst[i];
        if i :| 0 <= i < |burst| && Names(burst[i], key) {
          assert Names(init[i], key);
        }
      }
    }
  }

  predicate Names(call: Callback, key: Key) {
    call.OnDelta? && Key(call.delta.side, call.delta.price) == key
  }

  lemma {:induction false} ListedSizeIsCommon(levels: seq<PriceLevel>, price: int, size: real)
    requires forall i :: 0 <= i < |levels| && levels[i].price == price ==> levels[i].size == size
    ensures ListedSize(levels, price) == if Lists(levels, price) then size else 0.0
  {
    if levels != [] && levels[|levels| - 1].price != price {
      var init := levels[..|levels| - 1];
      ListedSizeIsCommon(init, price, size);
      assert forall i :: 0 <= i < |init| ==> init[i] == levels[i];
      if Lists(levels, price) {
        var i :| 0 <= i < |levels| && levels[i].price == price;
        assert init[i].price == price;
      }
    }
  }

  /** A snapshot that shows the whole book as it is at its sequence number. */
  ghost predicate CompleteSnapshot(log: Log, s: Snapshot) {
    && s.sequence <= |log|
    && (forall side, i :: 0 <= i < |s.Levels(side)| ==>
          s.Levels(side)[i].size == SizeAt(log, s.sequence, Key(side, s.Levels(side)[i].price)))
    && (forall key :: SizeAt(log, s.sequence, key) != 0.0 ==> Lists(s.Levels(key.side), key.price))
  }

  lemma {:induction false} CompleteSnapshotLists(log: Log, s: Snapshot, key: Key)
    requires CompleteSnapshot(log, s)
    ensures ListedSize(s.Levels(key.side), key.price) == SizeAt(log, s.sequence, key)
  {
    ListedSizeIsCommon(s.Levels(key.side), key.price, SizeAt(log, s.sequence, key));
  }
}
