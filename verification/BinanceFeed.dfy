/** Binance book synchronisation: buffer diffs, fetch a snapshot, bridge the two, stream.
    The functions over `FeedState` say what each step does; the class at the end does it in place. */
module BinanceFeed {
  import opened Common
  import opened MarketData

  const MAX_BUFFER_SIZE: nat := 8192

  datatype Mode = Disconnected | Buffering | Streaming

  /** Where the event loop is between two calls into the handler. */
  datatype Phase = Idle | Connecting | Fetching | Handoff | Replayed | Serving

  datatype ParsedLevel = ParsedLevel(price: int, size: real)

  /** One depth message: the levels touched by update ids first..last. */
  datatype Diff = Diff(first: UInt64, last: UInt64, bids: seq<ParsedLevel>, asks: seq<ParsedLevel>)

  /** A websocket message, as far as the handler tells messages apart. */
  datatype Message = Unreadable | OtherEvent | MissingIds | BadLevel | Depth(diff: Diff)

  /** What the snapshot request came back with. */
  datatype SnapshotReply = RateLimited | FetchFailed | BadBody | Parsed(snapshot: Snapshot)

  datatype FeedState = FeedState(
    running: bool, reconnect: bool, mode: Mode, phase: Phase, lastSequence: UInt64,
    buffer: seq<Diff>, highWater: nat, applied: nat, skipped: nat, resyncs: nat, reason: string,
    emitted: seq<Callback>)

  const FRESH := FeedState(false, false, Disconnected, Idle, 0, [], 0, 0, 0, 0, "", [])

  // ---------------------------------------------------------------- what each step does

  function LevelCallbacks(levels: seq<ParsedLevel>, side: Side, sequence: UInt64): (r: seq<Callback>)
    ensures |r| == |levels|
  {
    seq(|levels|, i requires 0 <= i < |levels| =>
      OnDelta(Delta(side, levels[i].price, levels[i].size, 0, sequence)))
  }

  function DiffCallbacks(d: Diff): seq<Callback> {
    LevelCallbacks(d.bids, Bid, d.last) + LevelCallbacks(d.asks, Ask, d.last)
  }

  /** Unsigned 64-bit increment. */
  function Successor(n: UInt64): UInt64 {
    if n == TWO_64 - 1 then 0 else n + 1
  }

  /** The diff covers the id that comes next. */
  predicate Bridges(last: UInt64, d: Diff) {
    d.first <= Successor(last) <= d.last
  }

  function Resync(s: FeedState, reason: string): FeedState {
    s.(resyncs := s.resyncs + 1, reason := reason, buffer := [], mode := Buffering, reconnect := true)
  }

  function Apply(s: FeedState, d: Diff): FeedState {
    s.(emitted := s.emitted + DiffCallbacks(d), lastSequence := d.last)
  }

  function OnDepth(s: FeedState, d: Diff): (FeedState, Outcome) {
    if s.mode.Buffering? then
      if |s.buffer| >= MAX_BUFFER_SIZE then (Resync(s, "buffer_overflow"), ConnectionLost)
      else (s.(buffer := s.buffer + [d], highWater := Max(s.highWater, |s.buffer| + 1)), Success)
    else if d.last <= s.lastSequence then (s, Success)
    else if !Bridges(s.lastSequence, d) then (Resync(s, "sequence_gap"), SequenceGap)
    else (Apply(s, d), Success)
  }

  function OnMessage(s: FeedState, m: Message): (FeedState, Outcome) {
    match m
    case Unreadable => (s, Success)
    case OtherEvent => (s, Success)
    case MissingIds => (s, InvalidSequence)
    case BadLevel => (s, BookCorrupted)
    case Depth(d) => OnDepth(s, d)
  }

  /** Leading buffered diffs that a snapshot already contains. */
  function StaleCount(ds: seq<Diff>, snapshot: UInt64): (k: nat)
    ensures k <= |ds|
  {
    if ds == [] || ds[0].last > snapshot then 0 else 1 + StaleCount(ds[1..], snapshot)
  }

  function Replay(s: FeedState, ds: seq<Diff>): (FeedState, bool)
    decreases |ds|
  {
    if ds == [] then (s, true)
    else if !Bridges(s.lastSequence, ds[0]) then (Resync(s, "buffered_sequence_gap"), false)
    else Replay(Apply(s, ds[0]), ds[1..])
  }

  function ApplyBuffered(s: FeedState, snapshot: UInt64): (FeedState, Outcome) {
    var k := StaleCount(s.buffer, snapshot);
    if k == |s.buffer| then (s.(skipped := s.skipped + k, buffer := []), Success)
    else if !Bridges(snapshot, s.buffer[k]) then (Resync(s, "snapshot_handoff_gap"), SequenceGap)
    else
      var (t, complete) := Replay(s, s.buffer[k..]);
      if !complete then (t, SequenceGap)
      else (t.(applied := t.applied + |s.buffer| - k, skipped := t.skipped + k, buffer := []), Success)
  }

  predicate Usable(snapshot: Snapshot) {
    snapshot.ChecksumMatches() && snapshot.bids != [] && snapshot.asks != []
  }

  function OnReply(s: FeedState, reply: SnapshotReply): (FeedState, Outcome) {
    match reply
    case RateLimited => (s, ConnectionLost)
    case FetchFailed => (s, ConnectionLost)
    case BadBody => (s, BookCorrupted)
    case Parsed(snapshot) =>
      if !Usable(snapshot) then (s, BookCorrupted)
      else (s.(lastSequence := snapshot.sequence, emitted := s.emitted + [OnSnapshot(snapshot)]), Success)
  }

  // ---------------------------------------------------------------- runs

  datatype Event =
    | Start
    | Stop
    | Message(message: Message)
    | Established
    | SnapshotReplied(reply: SnapshotReply)
    | ReplayBuffer
    | GoLive
    | ServiceEnded

  function OnFetch(s: FeedState, reply: SnapshotReply): FeedState {
    if !s.running then s.(phase := Idle)
    else
      var (t, outcome) := OnReply(s, reply);
      if outcome != Success then t.(phase := Connecting)
      else if t.buffer == [] || t.lastSequence >= t.buffer[0].first then t.(phase := Handoff)
      else t
  }

  function OnServiceEnded(s: FeedState): FeedState {
    if !s.running then s.(reconnect := false, phase := Idle)
    else if s.mode.Streaming? then Resync(s, "WebSocket disconnected").(reconnect := false, phase := Connecting)
    else s.(reconnect := false, phase := Connecting)
  }

  /** One step of the handler. The loop's own events do nothing in a phase that does not produce them. A
      message is taken in every phase: the loop services its socket only while it is serving, but
      process_message is public, and runs with messages in the other phases come from calls to it. */
  function Step(s: FeedState, e: Event): FeedState {
    match e
    case Start =>
      if s.running || s.phase != Idle then s
      else s.(reconnect := false, running := true, mode := Buffering, phase := Connecting)
    case Stop =>
      if !s.running && s.phase == Idle then s
      else s.(running := false, reconnect := false, mode := Disconnected)
    case Message(m) => OnMessage(s, m).0
    case Established =>
      if s.phase != Connecting then s
      else if !s.running then s.(phase := Idle)
      else s.(reconnect := false, mode := Buffering, buffer := [], phase := Fetching)
    case SnapshotReplied(reply) => if s.phase != Fetching then s else OnFetch(s, reply)
    case ReplayBuffer =>
      if s.phase != Handoff then s
      else if !s.running then s.(phase := Idle)
      else
        var (t, outcome) := ApplyBuffered(s, s.lastSequence);
        t.(phase := if outcome == Success then Replayed else Connecting)
    case GoLive => if s.phase != Replayed then s else s.(mode := Streaming, phase := Serving)
    case ServiceEnded => if s.phase != Serving then s else OnServiceEnded(s)
  }

  function Run(s: FeedState, events: seq<Event>): FeedState
    decreases |events|
  {
    if events == [] then s else Run(Step(s, events[0]), events[1..])
  }

  // ---------------------------------------------------------------- honesty and agreement

  /** Every listed level has its size as of `last`, and every level touched in first..last is listed. */
  ghost predicate HonestDiff(log: Log, d: Diff) {
    && 1 <= d.first <= d.last <= |log|
    && (forall i :: 0 <= i < |d.bids| ==> d.bids[i].size == SizeAt(log, d.last, Key(Bid, d.bids[i].price)))
    && (forall i :: 0 <= i < |d.asks| ==> d.asks[i].size == SizeAt(log, d.last, Key(Ask, d.asks[i].price)))
    && (forall i, key :: d.first <= i + 1 <= d.last && key in log[i] ==> Touches(d, key))
  }

  ghost predicate Touches(d: Diff, key: Key) {
    if key.side.Bid? then exists i :: 0 <= i < |d.bids| && d.bids[i].price == key.price
    else exists i :: 0 <= i < |d.asks| && d.asks[i].price == key.price
  }

  ghost predicate HonestEvent(log: Log, e: Event) {
    match e
    case Message(Depth(d)) => HonestDiff(log, d)
    case SnapshotReplied(Parsed(snapshot)) => CompleteSnapshot(log, snapshot)
    case _ => true
  }

  /** The callbacks, believed level by level, show the exchange's book at `lastSequence`. */
  ghost predicate InSync(log: Log, s: FeedState) {
    && s.lastSequence <= |log|
    && forall key :: Shown(s.emitted, key) == SizeAt(log, s.lastSequence, key)
  }

  ghost predicate Inv(log: Log, s: FeedState) {
    InSync(log, s) && forall i :: 0 <= i < |s.buffer| ==> HonestDiff(log, s.buffer[i])
  }

  lemma {:induction false} DiffCallbacksNames(log: Log, d: Diff, key: Key)
    requires HonestDiff(log, d)
    ensures forall i :: 0 <= i < |DiffCallbacks(d)| ==> DiffCallbacks(d)[i].OnDelta?
    ensures forall i :: 0 <= i < |DiffCallbacks(d)| && Names(DiffCallbacks(d)[i], key) ==>
              DiffCallbacks(d)[i].delta.size == SizeAt(log, d.last, key)
    ensures Touches(d, key) <==> exists i :: 0 <= i < |DiffCallbacks(d)| && Names(DiffCallbacks(d)[i], key)
  {
    var calls := DiffCallbacks(d);
    if Touches(d, key) {
      if key.side.Bid? {
        var i :| 0 <= i < |d.bids| && d.bids[i].price == key.price;
        assert Names(calls[i], key);
      } else {
        var i :| 0 <= i < |d.asks| && d.asks[i].price == key.price;
        assert Names(calls[|d.bids| + i], key);
      }
    }
  }

  /** A diff that covers the next id carries the shown book from `lastSequence` to `d.last`, however
      far its range reaches back. */
  lemma {:induction false} ApplyKeepsSync(log: Log, s: FeedState, d: Diff)
    requires InSync(log, s) && HonestDiff(log, d) && Bridges(s.lastSequence, d)
    ensures InSync(log, Apply(s, d))
  {
    forall key
      ensures Shown(Apply(s, d).emitted, key) == SizeAt(log, d.last, key)
    {
      DiffCallbacksNames(log, d, key);
      ShownAfterDeltas(s.emitted, DiffCallbacks(d), key, SizeAt(log, d.last, key));
      if !Touches(d, key) {
        SizeAtUntouched(log, s.lastSequence, d.last, key);
      }
    }
  }

  lemma {:induction false} ReplayKeepsSync(log: Log, s: FeedState, ds: seq<Diff>)
    requires InSync(log, s) && forall i :: 0 <= i < |ds| ==> HonestDiff(log, ds[i])
    ensures InSync(log, Replay(s, ds).0)
    decreases |ds|
  {
    if ds != [] && Bridges(s.lastSequence, ds[0]) {
      ApplyKeepsSync(log, s, ds[0]);
      ReplayKeepsSync(log, Apply(s, ds[0]), ds[1..]);
    }
  }

  lemma {:induction false} ReplayBufferHonest(s: FeedState, ds: seq<Diff>)
    ensures Replay(s, ds).0.buffer == if Replay(s, ds).1 then s.buffer else []
    decreases |ds|
  {
    if ds != [] && Bridges(s.lastSequence, ds[0]) {
      ReplayBufferHonest(Apply(s, ds[0]), ds[1..]);
    }
  }

  /** Also when the replay stops half way, and for any snapshot id a caller passes. */
  lemma {:induction false} ApplyBufferedKeepsInv(log: Log, s: FeedState, snapshot: UInt64)
    requires Inv(log, s)
    ensures Inv(log, ApplyBuffered(s, snapshot).0)
  {
    var ds := s.buffer[StaleCount(s.buffer, snapshot)..];
    ReplayKeepsSync(log, s, ds);
    ReplayBufferHonest(s, ds);
  }

  lemma {:induction false} StepKeepsInv(log: Log, s: FeedState, e: Event)
    requires Inv(log, s) && HonestEvent(log, e)
    ensures Inv(log, Step(s, e))
  {
    match e
    case Message(Depth(d)) =>
      if !s.mode.Buffering? && d.last > s.lastSequence && Bridges(s.lastSequence, d) {
        ApplyKeepsSync(log, s, d);
      }
    case SnapshotReplied(Parsed(snapshot)) =>
      if s.phase == Fetching && s.running && Usable(snapshot) {
        forall key
          ensures Shown(s.emitted + [OnSnapshot(snapshot)], key) == SizeAt(log, snapshot.sequence, key)
        {
          ShownAppend(s.emitted, OnSnapshot(snapshot), key);
          CompleteSnapshotLists(log, snapshot, key);
        }
      }
    case ReplayBuffer =>
      ApplyBufferedKeepsInv(log, s, s.lastSequence);
    case _ =>
  }

  /** Main result: in every reachable state, at every message boundary, the fold of all callbacks is
      the exchange's book at `lastSequence` -- after gaps, overflows, aborted replays and reconnects. */
  lemma {:induction false} AlwaysInSync(log: Log, events: seq<Event>)
    requires forall i :: 0 <= i < |events| ==> HonestEvent(log, events[i])
    ensures InSync(log, Run(FRESH, events))
  {
    RunKeepsInv(log, FRESH, events);
  }

  lemma {:induction false} RunKeepsInv(log: Log, s: FeedState, events: seq<Event>)
    requires Inv(log, s)
    requires forall i :: 0 <= i < |events| ==> HonestEvent(log, events[i])
    ensures Inv(log, Run(s, events))
    decreases |events|
  {
    if events != [] {
      StepKeepsInv(log, s, events[0]);
      RunKeepsInv(log, Step(s, events[0]), events[1..]);
    }
  }

  // ---------------------------------------------------------------- why it resyncs

  const REASONS: set<string> := {"", "buffer_overflow", "sequence_gap", "snapshot_handoff_gap",
                                 "buffered_sequence_gap", "WebSocket disconnected"}

  lemma {:induction false} ReplayReasons(s: FeedState, ds: seq<Diff>)
    requires s.reason in REASONS
    ensures Replay(s, ds).0.reason in REASONS
    decreases |ds|
  {
    if ds != [] && Bridges(s.lastSequence, ds[0]) {
      ReplayReasons(Apply(s, ds[0]), ds[1..]);
    }
  }

  /** These are all the reasons a resync is ever given: `snapshot_handoff_missing_bridge` and
      `buffered_delta_apply_failed` are not among them. */
  lemma {:induction false} ResyncReasons(s: FeedState, events: seq<Event>)
    requires s.reason in REASONS
    ensures Run(s, events).reason in REASONS
    decreases |events|
  {
    if events != [] {
      StepReasons(s, events[0]);
      ResyncReasons(Step(s, events[0]), events[1..]);
    }
  }

  lemma {:induction false} StepReasons(s: FeedState, e: Event)
    requires s.reason in REASONS
    ensures Step(s, e).reason in REASONS
  {
    if e.ReplayBuffer? {
      ReplayReasons(s, s.buffer[StaleCount(s.buffer, s.lastSequence)..]);
    }
  }

  // ---------------------------------------------------------------- completeness of the handoff

  /** Each diff starts where the one before it ended, as on an unbroken stream. */
  predicate Contiguous(ds: seq<Diff>) {
    ds == [] ||
    (ds[0].first <= ds[0].last
     && (|ds| > 1 ==> ds[1].first == ds[0].last + 1)
     && Contiguous(ds[1..]))
  }

  function AllCallbacks(ds: seq<Diff>): seq<Callback> {
    if ds == [] then [] else DiffCallbacks(ds[0]) + AllCallbacks(ds[1..])
  }

  lemma {:induction false} ReplayContiguous(s: FeedState, ds: seq<Diff>)
    requires Contiguous(ds) && (ds != [] ==> Bridges(s.lastSequence, ds[0]))
    ensures Replay(s, ds) ==
            (s.(emitted := s.emitted + AllCallbacks(ds),
                lastSequence := if ds == [] then s.lastSequence else ds[|ds| - 1].last), true)
    decreases |ds|
  {
    if ds == [] {
      assert s.emitted + [] == s.emitted;
    } else {
      ReplayContiguous(Apply(s, ds[0]), ds[1..]);
      Regroup(s.emitted, DiffCallbacks(ds[0]), AllCallbacks(ds[1..]));
    }
  }

  lemma {:induction false} Regroup<T>(a: seq<T>, b: seq<T>, c: seq<T>)
    ensures a + b + c == a + (b + c)
  {
  }

  ghost predicate StalePrefix(ds: seq<Diff>, snapshot: UInt64, k: nat) {
    k <= |ds| && forall i :: 0 <= i < |ds| ==> (i < k <==> ds[i].last <= snapshot)
  }

  function AfterReplay(s: FeedState, k: nat, end: UInt64): FeedState
    requires k <= |s.buffer|
  {
    s.(emitted := s.emitted + AllCallbacks(s.buffer[k..]), lastSequence := end,
       applied := s.applied + |s.buffer| - k, skipped := s.skipped + k, buffer := [])
  }

  function LastId(ds: seq<Diff>, otherwise: UInt64): UInt64 {
    if ds == [] then otherwise else Max(otherwise, ds[|ds| - 1].last)
  }

  /** On an unbroken buffer the handoff succeeds exactly when the snapshot reaches the update before
      the first buffered one. It then skips precisely the diffs the snapshot contains, emits every
      other one, and ends at the later of the snapshot and the last diff. */
  lemma {:induction false} HandoffComplete(s: FeedState, snapshot: UInt64)
    requires Contiguous(s.buffer) && s.lastSequence == snapshot
    ensures ApplyBuffered(s, snapshot).1 == Success <==>
            (s.buffer == [] || s.buffer[0].first <= snapshot + 1)
    ensures ApplyBuffered(s, snapshot).1 == Success ==>
              exists k: nat :: StalePrefix(s.buffer, snapshot, k)
                && ApplyBuffered(s, snapshot).0 == AfterReplay(s, k, LastId(s.buffer, snapshot))
  {
    HandoffAt(s, snapshot);
    var k := StaleCount(s.buffer, snapshot);
    StaleCountIsPrefix(s.buffer, snapshot);
    assert StalePrefix(s.buffer, snapshot, k);
  }

  lemma {:induction false} StaleCountIsPrefix(ds: seq<Diff>, snapshot: UInt64)
    requires Contiguous(ds)
    ensures StalePrefix(ds, snapshot, StaleCount(ds, snapshot))
  {
    StaleCountSplits(ds, snapshot);
    LastsIncrease(ds);
  }

  /** The leading diffs a snapshot contains, and the first one it does not. */
  lemma {:induction false} StaleCountSplits(ds: seq<Diff>, snapshot: UInt64)
    ensures forall i :: 0 <= i < StaleCount(ds, snapshot) ==> ds[i].last <= snapshot
    ensures StaleCount(ds, snapshot) < |ds| ==> ds[StaleCount(ds, snapshot)].last > snapshot
  {
    if ds != [] && ds[0].last <= snapshot {
      StaleCountSplits(ds[1..], snapshot);
    }
  }

  lemma {:induction false} HandoffAt(s: FeedState, snapshot: UInt64)
    requires Contiguous(s.buffer) && s.lastSequence == snapshot
    ensures ApplyBuffered(s, snapshot) ==
            if s.buffer == [] || s.buffer[0].first <= snapshot + 1
            then (AfterReplay(s, StaleCount(s.buffer, snapshot), LastId(s.buffer, snapshot)), Success)
            else (Resync(s, "snapshot_handoff_gap"), SequenceGap)
  {
    var k := StaleCount(s.buffer, snapshot);
    StaleCountIsPrefix(s.buffer, snapshot);
    if k == |s.buffer| {
      HandoffAllStale(s, snapshot);
    } else {
      BridgeIffReached(s.buffer, snapshot, k);
      if Bridges(snapshot, s.buffer[k]) {
        HandoffBridged(s, snapshot, k);
      } else {
        HandoffMissed(s, snapshot, k);
      }
    }
  }

  lemma {:induction false} HandoffMissed(s: FeedState, snapshot: UInt64, k: nat)
    requires k == StaleCount(s.buffer, snapshot) && k < |s.buffer| && !Bridges(snapshot, s.buffer[k])
    ensures ApplyBuffered(s, snapshot) == (Resync(s, "snapshot_handoff_gap"), SequenceGap)
  {
  }

  lemma {:induction false} HandoffBridged(s: FeedState, snapshot: UInt64, k: nat)
    requires Contiguous(s.buffer) && s.lastSequence == snapshot && k == StaleCount(s.buffer, snapshot)
    requires StalePrefix(s.buffer, snapshot, k) && k < |s.buffer| && Bridges(snapshot, s.buffer[k])
    ensures ApplyBuffered(s, snapshot) == (AfterReplay(s, k, LastId(s.buffer, snapshot)), Success)
  {
    ReplayTail(s, snapshot, k);
  }

  lemma {:induction false} HandoffAllStale(s: FeedState, snapshot: UInt64)
    requires Contiguous(s.buffer) && s.lastSequence == snapshot
    requires StalePrefix(s.buffer, snapshot, |s.buffer|) && StaleCount(s.buffer, snapshot) == |s.buffer|
    ensures s.buffer == [] || s.buffer[0].first <= snapshot + 1
    ensures ApplyBuffered(s, snapshot) == (AfterReplay(s, |s.buffer|, LastId(s.buffer, snapshot)), Success)
  {
    assert AllCallbacks(s.buffer[|s.buffer|..]) == [] && s.emitted + [] == s.emitted;
    if s.buffer != [] {
      assert s.buffer[0].last <= snapshot && s.buffer[|s.buffer| - 1].last <= snapshot;
    }
  }

  lemma {:induction false} ReplayTail(s: FeedState, snapshot: UInt64, k: nat)
    requires Contiguous(s.buffer) && s.lastSequence == snapshot
    requires StalePrefix(s.buffer, snapshot, k) && k < |s.buffer| && Bridges(snapshot, s.buffer[k])
    ensures Replay(s, s.buffer[k..]) ==
            (s.(emitted := s.emitted + AllCallbacks(s.buffer[k..]), lastSequence := LastId(s.buffer, snapshot)),
             true)
  {
    SplitContiguous(s.buffer, k);
    ReplayContiguous(s, s.buffer[k..]);
    assert !(|s.buffer| - 1 < k);
    assert s.buffer[|s.buffer| - 1].last > snapshot;
  }

  lemma {:induction false} SplitContiguous(ds: seq<Diff>, k: nat)
    requires Contiguous(ds) && k <= |ds|
    ensures Contiguous(ds[..k]) && Contiguous(ds[k..])
    ensures 0 < k < |ds| ==> ds[k].first == ds[k - 1].last + 1
  {
    if k == 0 {
      assert ds[k..] == ds;
    } else {
      SplitContiguous(ds[1..], k - 1);
      assert ds[1..][k - 1..] == ds[k..];
      assert ds[..k][1..] == ds[1..][..k - 1];
    }
  }

  lemma {:induction false} BridgeIffReached(ds: seq<Diff>, snapshot: UInt64, k: nat)
    requires Contiguous(ds) && StalePrefix(ds, snapshot, k) && k < |ds|
    ensures Bridges(snapshot, ds[k]) <==> ds[0].first <= snapshot + 1
  {
    assert ds[k].last > snapshot;
    assert snapshot + 1 < TWO_64;
    SplitContiguous(ds, k);
    if k > 0 {
      assert ds[0].first <= ds[0].last <= snapshot;
    }
  }

  lemma {:induction false} LastsIncrease(ds: seq<Diff>)
    requires Contiguous(ds)
    ensures forall i, j :: 0 <= i < j < |ds| ==> ds[i].last < ds[j].last
  {
    if ds != [] {
      var tail := ds[1..];
      LastsIncrease(tail);
      forall i, j | 0 <= i < j < |ds|
        ensures ds[i].last < ds[j].last
      {
        assert ds[j] == tail[j - 1];
        if i > 0 {
          assert ds[i] == tail[i - 1];
        } else if j > 1 {
          assert tail[0].last < tail[j - 1].last;
        }
      }
    }
  }

  /** The event loop's own test, snapshot id at or after the first buffered id, is enough. */
  lemma {:induction false} HandoffTestSuffices(s: FeedState)
    requires Contiguous(s.buffer) && s.phase == Handoff && s.running
    requires s.buffer == [] || s.lastSequence >= s.buffer[0].first
    ensures var t := Step(s, ReplayBuffer);
            && t.phase == Replayed && t.running && t.resyncs == s.resyncs && t.reconnect == s.reconnect
            && t.lastSequence == LastId(s.buffer, s.lastSequence)
  {
    HandoffAt(s, s.lastSequence);
  }

  lemma {:induction false} FetchPasses(s: FeedState, snapshot: Snapshot)
    requires s.phase == Fetching && s.running && Usable(snapshot)
    requires s.buffer == [] || snapshot.sequence >= s.buffer[0].first
    ensures var t := Step(s, SnapshotReplied(Parsed(snapshot)));
            && t.phase == Handoff && t.running && t.resyncs == s.resyncs && t.reconnect == s.reconnect
            && t.lastSequence == snapshot.sequence && t.buffer == s.buffer
  {
  }

  /** While streaming, a well-formed diff forces a resync exactly when it starts after the next id. */
  lemma {:induction false} ResyncExactlyOnGap(s: FeedState, d: Diff)
    requires !s.mode.Buffering? && d.first <= d.last
    ensures Step(s, Message(Depth(d))).resyncs != s.resyncs <==> d.first > s.lastSequence + 1
    ensures d.first > s.lastSequence + 1 ==>
              Step(s, Message(Depth(d))) == Resync(s, "sequence_gap")
    ensures d.first <= s.lastSequence + 1 ==>
              Step(s, Message(Depth(d))).lastSequence == Max(s.lastSequence, d.last)
  {
  }

  function Messages(ds: seq<Diff>): (es: seq<Event>)
    ensures |es| == |ds| && forall i :: 0 <= i < |es| ==> es[i] == Message(Depth(ds[i]))
  {
    seq(|ds|, i requires 0 <= i < |ds| => Message(Depth(ds[i])))
  }

  lemma {:induction false} StreamingContiguous(s: FeedState, ds: seq<Diff>)
    requires s.mode.Streaming? && Contiguous(ds)
    requires ds != [] ==> ds[0].first <= s.lastSequence + 1
    ensures var t := Run(s, Messages(ds));
            && t == s.(emitted := t.emitted, lastSequence := t.lastSequence)
            && t.lastSequence == LastId(ds, s.lastSequence)
    decreases |ds|
  {
    if ds != [] {
      LastsIncrease(ds);
      assert Messages(ds)[1..] == Messages(ds[1..]);
      StreamingContiguous(Step(s, Message(Depth(ds[0]))), ds[1..]);
    }
  }

  lemma {:induction false} BufferingContiguous(s: FeedState, ds: seq<Diff>)
    requires s.mode.Buffering? && |s.buffer| + |ds| <= MAX_BUFFER_SIZE
    ensures var t := Run(s, Messages(ds));
            t == s.(buffer := s.buffer + ds, highWater := t.highWater)
    decreases |ds|
  {
    if ds == [] {
      assert s.buffer + ds == s.buffer;
    } else {
      assert Messages(ds)[1..] == Messages(ds[1..]);
      BufferingContiguous(Step(s, Message(Depth(ds[0]))), ds[1..]);
      assert s.buffer + [ds[0]] + ds[1..] == s.buffer + ds;
    }
  }

  lemma {:induction false} RunSplit(s: FeedState, a: seq<Event>, b: seq<Event>)
    ensures Run(s, a + b) == Run(Run(s, a), b)
    decreases |a|
  {
    if a == [] {
      assert a + b == b;
    } else {
      assert (a + b)[1..] == a[1..] + b;
      RunSplit(Step(s, a[0]), a[1..], b);
    }
  }

  /** From a fresh connection: buffer `early`, take one snapshot that passes the handoff test, go live. */
  function Synchronised(s: FeedState, early: seq<Diff>, snapshot: Snapshot): FeedState {
    var buffered := Run(Step(s, Established), Messages(early));
    Step(Step(Step(buffered, SnapshotReplied(Parsed(snapshot))), ReplayBuffer), GoLive)
  }

  lemma {:induction false} SynchronisedComplete(s: FeedState, early: seq<Diff>, snapshot: Snapshot)
    requires s.phase == Connecting && s.running && Usable(snapshot)
    requires Contiguous(early) && |early| <= MAX_BUFFER_SIZE
    requires early != [] ==> early[0].first <= snapshot.sequence
    ensures var t := Synchronised(s, early, snapshot);
            && t.mode.Streaming? && t.phase == Serving && t.running && t.resyncs == s.resyncs && !t.reconnect
            && t.lastSequence == LastId(early, snapshot.sequence)
  {
    var connected := Step(s, Established);
    BufferingContiguous(connected, early);
    var buffered := Run(connected, Messages(early));
    assert [] + early == early;
    FetchPasses(buffered, snapshot);
    var fetched := Step(buffered, SnapshotReplied(Parsed(snapshot)));
    HandoffTestSuffices(fetched);
    LiveAfterReplay(Step(fetched, ReplayBuffer));
  }

  lemma {:induction false} LiveAfterReplay(s: FeedState)
    requires s.phase == Replayed
    ensures var t := Step(s, GoLive);
            && t.mode.Streaming? && t.phase == Serving && t.running == s.running && t.resyncs == s.resyncs
            && t.lastSequence == s.lastSequence && t.reconnect == s.reconnect
  {
  }

  /** A session on an unbroken stream, then `late` arrives: no resync happens and nothing is lost; the
      handler streams at the later of the snapshot and the last diff. */
  lemma {:induction false} CleanSession(s: FeedState, early: seq<Diff>, snapshot: Snapshot, late: seq<Diff>)
    requires s.phase == Connecting && s.running && Usable(snapshot)
    requires Contiguous(early + late) && |early| <= MAX_BUFFER_SIZE
    requires if early != [] then early[0].first <= snapshot.sequence
             else late != [] ==> late[0].first <= snapshot.sequence + 1
    ensures var t := Run(Synchronised(s, early, snapshot), Messages(late));
            && t.mode.Streaming? && t.phase == Serving && t.resyncs == s.resyncs
            && t.lastSequence == LastId(early + late, snapshot.sequence)
  {
    JoinLastId(early, late, snapshot.sequence);
    SynchronisedComplete(s, early, snapshot);
    StreamingContiguous(Synchronised(s, early, snapshot), late);
  }

  lemma {:induction false} JoinLastId(a: seq<Diff>, b: seq<Diff>, start: UInt64)
    requires Contiguous(a + b)
    ensures Contiguous(a) && Contiguous(b)
    ensures a != [] && b != [] ==> b[0].first == a[|a| - 1].last + 1
    ensures LastId(b, LastId(a, start)) == LastId(a + b, start)
  {
    var all := a + b;
    SplitContiguous(all, |a|);
    assert all[..|a|] == a && all[|a|..] == b;
    if b == [] {
      assert all == a;
    } else {
      LastsIncrease(all);
      assert all[|all| - 1] == b[|b| - 1];
      assert a != [] ==> a[|a| - 1] == all[|a| - 1];
    }
  }

  // ---------------------------------------------------------------- the handler itself

  lemma {:induction false} StaleCountIs(ds: seq<Diff>, snapshot: UInt64, k: nat)
    requires k <= |ds| && (forall j :: 0 <= j < k ==> ds[j].last <= snapshot)
    requires k < |ds| ==> ds[k].last > snapshot
    ensures StaleCount(ds, snapshot) == k
  {
    if k > 0 {
      assert forall j :: 0 <= j < k - 1 ==> ds[1..][j].last <= snapshot;
      StaleCountIs(ds[1..], snapshot, k - 1);
    }
  }

  class BinanceFeedHandler {
    var running: bool
    var reconnect: bool
    var mode: Mode
    var phase: Phase
    var lastSequence: UInt64
    var buffer: seq<Diff>
    var highWater: nat
    var applied: nat
    var skipped: nat
    var resyncs: nat
    var reason: string
    var emitted: seq<Callback>

    ghost function View(): FeedState
      reads this
    {
      FeedState(running, reconnect, mode, phase, lastSequence, buffer, highWater, applied, skipped,
                resyncs, reason, emitted)
    }

    constructor ()
      ensures View() == FRESH
    {
      running, reconnect, mode, phase, lastSequence := false, false, Disconnected, Idle, 0;
      buffer, highWater, applied, skipped, resyncs, reason, emitted := [], 0, 0, 0, 0, "", [];
    }

    predicate ValidateDeltaSequence(d: Diff)
      reads this
    {
      Bridges(lastSequence, d)
    }

    method TriggerResnapshot(why: string)
      modifies this
      ensures View() == Resync(old(View()), why)
    {
      resyncs := resyncs + 1;
      reason := why;
      buffer := [];
      mode := Buffering;
      reconnect := true;
    }

    method EmitLevels(levels: seq<ParsedLevel>, side: Side, sequence: UInt64)
      modifies this`emitted
      ensures emitted == old(emitted) + LevelCallbacks(levels, side, sequence)
    {
      for i := 0 to |levels|
        invariant emitted == old(emitted) + LevelCallbacks(levels, side, sequence)[..i]
      {
        emitted := emitted + [OnDelta(Delta(side, levels[i].price, levels[i].size, 0, sequence))];
      }
    }

    method ApplyDelta(d: Diff) returns (outcome: Outcome)
      modifies this
      ensures outcome == Success && View() == Apply(old(View()), d)
    {
      EmitLevels(d.bids, Bid, d.last);
      EmitLevels(d.asks, Ask, d.last);
      lastSequence := d.last;
      assert emitted == old(emitted) + DiffCallbacks(d);
      return Success;
    }

    method ProcessDepth(d: Diff) returns (outcome: Outcome)
      modifies this
      ensures (View(), outcome) == OnDepth(old(View()), d)
    {
      if mode == Buffering {
        if |buffer| >= MAX_BUFFER_SIZE {
          TriggerResnapshot("buffer_overflow");
          return ConnectionLost;
        }
        buffer := buffer + [d];
        highWater := Max(highWater, |buffer|);
        return Success;
      }
      if d.last <= lastSequence {
        return Success;
      }
      if !ValidateDeltaSequence(d) {
        TriggerResnapshot("sequence_gap");
        return SequenceGap;
      }
      outcome := ApplyDelta(d);
    }

    method ProcessMessage(m: Message) returns (outcome: Outcome)
      modifies this
      ensures (View(), outcome) == OnMessage(old(View()), m)
    {
      match m
      case Unreadable => return Success;
      case OtherEvent => return Success;
      case MissingIds => return InvalidSequence;
      case BadLevel => return BookCorrupted;
      case Depth(d) => outcome := ProcessDepth(d);
    }

    /** Where the replay would start, at the first buffered diff that the snapshot does not contain, and how
        many diffs were skipped on the way. */
    method ScanBuffer(snapshot: UInt64) returns (start: nat, stale: nat)
      ensures stale == start <= |buffer|
      ensures forall j :: 0 <= j < start ==> buffer[j].last <= snapshot
      ensures start < |buffer| ==> buffer[start].last > snapshot
    {
      stale := 0;
      for i := 0 to |buffer|
        invariant stale == i && forall j :: 0 <= j < i ==> buffer[j].last <= snapshot
      {
        if buffer[i].last > snapshot {
          return i, stale;
        }
        stale := stale + 1;
      }
      return |buffer|, stale;
    }

    method ApplyBufferedDeltas(snapshot: UInt64) returns (outcome: Outcome)
      modifies this
      ensures (View(), outcome) == ApplyBuffered(old(View()), snapshot)
    {
      var start, stale := ScanBuffer(snapshot);
      StaleCountIs(buffer, snapshot, start);
      if start < |buffer| && !Bridges(snapshot, buffer[start]) {
        TriggerResnapshot("snapshot_handoff_gap");
        return SequenceGap;
      }
      if start == |buffer| {
        if buffer == [] || stale == |buffer| {
          skipped := skipped + stale;
          buffer := [];
          return Success;
        }
        // "snapshot_handoff_missing_bridge": a scan that reaches the end has skipped every diff.
        assert false;
      }
      outcome := ReplayFrom(start);
      if outcome == Success {
        applied := applied + (|buffer| - start);
        skipped := skipped + stale;
        buffer := [];
      }
    }

    method ReplayFrom(start: nat) returns (outcome: Outcome)
      requires start <= |buffer|
      modifies this
      ensures (View(), outcome == Success) == Replay(old(View()), old(buffer)[start..])
      ensures outcome == Success || outcome == SequenceGap
      ensures outcome == Success ==> buffer == old(buffer)
    {
      for i := start to |buffer|
        invariant buffer == old(buffer)
        invariant Replay(View(), buffer[i..]) == Replay(old(View()), buffer[start..])
      {
        if !ValidateDeltaSequence(buffer[i]) {
          TriggerResnapshot("buffered_sequence_gap");
          return SequenceGap;
        }
        assert buffer[i..][1..] == buffer[i + 1..];
        var result := ApplyDelta(buffer[i]);
        if result != Success {
          // "buffered_delta_apply_failed": applying a delta always succeeds.
          assert false;
        }
      }
      return Success;
    }

    method ProcessSnapshot(reply: SnapshotReply) returns (outcome: Outcome)
      modifies this
      ensures (View(), outcome) == OnReply(old(View()), reply)
    {
      match reply
      case RateLimited => return ConnectionLost;
      case FetchFailed => return ConnectionLost;
      case BadBody => return BookCorrupted;
      case Parsed(snapshot) =>
        if !snapshot.ChecksumMatches() || snapshot.bids == [] || snapshot.asks == [] {
          return BookCorrupted;
        }
        lastSequence := snapshot.sequence;
        emitted := emitted + [OnSnapshot(snapshot)];
        return Success;
    }

    /** One turn of the event loop, or one call from outside it. */
    method Handle(e: Event)
      modifies this
      ensures View() == Step(old(View()), e)
    {
      match e
      case Start =>
        if !running && phase == Idle {
          reconnect := false;
          running := true;
          mode := Buffering;
          phase := Connecting;
        }
      case Stop =>
        if running || phase != Idle {
          running := false;
          reconnect := false;
          mode := Disconnected;
        }
      case Message(m) =>
        var _ := ProcessMessage(m);
      case Established =>
        if phase == Connecting {
          if !running {
            phase := Idle;
          } else {
            reconnect := false;
            mode := Buffering;
            buffer := [];
            phase := Fetching;
          }
        }
      case SnapshotReplied(reply) =>
        if phase == Fetching {
          FetchOnce(reply);
        }
      case ReplayBuffer =>
        if phase == Handoff {
          if !running {
            phase := Idle;
          } else {
            var outcome := ApplyBufferedDeltas(lastSequence);
            phase := if outcome == Success then Replayed else Connecting;
          }
        }
      case GoLive =>
        if phase == Replayed {
          mode := Streaming;
          phase := Serving;
        }
      case ServiceEnded =>
        if phase == Serving {
          EndService();
        }
    }

    method FetchOnce(reply: SnapshotReply)
      modifies this
      ensures View() == OnFetch(old(View()), reply)
    {
      if !running {
        phase := Idle;
        return;
      }
      var outcome := ProcessSnapshot(reply);
      if outcome != Success {
        phase := Connecting;
      } else if buffer == [] || lastSequence >= buffer[0].first {
        phase := Handoff;
      }
    }

    method EndService()
      modifies this
      ensures View() == OnServiceEnded(old(View()))
    {
      reconnect := false;
      if !running {
        phase := Idle;
      } else {
        if mode == Streaming {
          TriggerResnapshot("WebSocket disconnected");
          reconnect := false;
        }
        phase := Connecting;
      }
    }

    /** A whole run of the object is the run the theorems speak of. */
    method HandleAll(events: seq<Event>)
      modifies this
      ensures View() == Run(old(View()), events)
    {
      for i := 0 to |events|
        invariant Run(View(), events[i..]) == Run(old(View()), events)
      {
        assert events[i..][1..] == events[i + 1..];
        Handle(events[i]);
      }
    }
  }
}
