/** What a resync of the Binance handler means: which steps force one, that the handler is silent from there
    until a snapshot has been replayed, and that it then streams again. */
module BinanceRecovery {
  import opened Common
  import opened MarketData
  import opened BinanceFeed

  // ---------------------------------------------------------------- what forces a resync

  /** From `s` to `t` the handler gave up its book: it buffers afresh, asks for a new connection and has
      counted one resync more. */
  ghost predicate GaveUp(s: FeedState, t: FeedState) {
    t.mode == Buffering && t.reconnect && t.buffer == [] && t.resyncs == s.resyncs + 1
  }

  /** A well-formed diff that starts past the next id is refused whole: the handler gives up, and nothing of
      the diff reaches the consumer or moves the id. */
  lemma {:induction false} GapGivesUp(s: FeedState, d: Diff)
    requires s.mode != Buffering && d.first <= d.last && d.first > s.lastSequence + 1
    ensures var t := Step(s, Message(Depth(d)));
            && GaveUp(s, t) && t.reason == "sequence_gap"
            && t.emitted == s.emitted && t.lastSequence == s.lastSequence
            && t.running == s.running && t.phase == s.phase
  {
  }

  /** The diff that finds the buffer full is lost with all that waited. */
  lemma {:induction false} OverflowGivesUp(s: FeedState, d: Diff)
    requires s.mode == Buffering && |s.buffer| >= MAX_BUFFER_SIZE
    ensures var t := Step(s, Message(Depth(d)));
            && GaveUp(s, t) && t.reason == "buffer_overflow"
            && t.emitted == s.emitted && t.lastSequence == s.lastSequence
            && t.running == s.running && t.phase == s.phase
  {
  }

  lemma {:induction false} AbortedReplay(s: FeedState, ds: seq<Diff>)
    ensures var (t, complete) := Replay(s, ds);
            && t.running == s.running && s.emitted <= t.emitted
            && if complete then t.resyncs == s.resyncs && t.buffer == s.buffer else GaveUp(s, t)
    decreases |ds|
  {
    if ds != [] && Bridges(s.lastSequence, ds[0]) { AbortedReplay(Apply(s, ds[0]), ds[1..]); }
  }

  /** The handoff either goes through, with an empty buffer and no resync, or gives up: what the replay had
      sent by then stays sent, and the loop connects again. */
  lemma {:induction false} HandoffOrGiveUp(s: FeedState)
    requires s.phase == Handoff && s.running
    ensures var t := Step(s, ReplayBuffer);
            && t.running && s.emitted <= t.emitted
            && if t.phase == Replayed then t.resyncs == s.resyncs && t.buffer == []
               else t.phase == Connecting && GaveUp(s, t)
  {
    AbortedReplay(s, s.buffer[StaleCount(s.buffer, s.lastSequence)..]);
  }

  /** A connection lost while streaming gives the book up too, without asking for what the loop does anyway; one
      lost after the handler gave up counts no second resync. */
  lemma {:induction false} LostConnectionGivesUp(s: FeedState)
    requires s.phase == Serving && s.running
    ensures var t := Step(s, ServiceEnded);
            && t.phase == Connecting && t.running && !t.reconnect
            && t.emitted == s.emitted && t.lastSequence == s.lastSequence
            && (s.mode == Streaming ==> t.mode == Buffering && t.buffer == [] && t.resyncs == s.resyncs + 1)
            && (s.mode == Buffering ==> t.mode == Buffering && t.buffer == s.buffer && t.resyncs == s.resyncs)
  {
  }

  /** A stop is seen at once by whoever asks, and by the loop at its next turn, which then idles; a start from
      there connects and buffers, without a request left over. */
  lemma {:induction false} StoppedAndStarted(s: FeedState, e: Event)
    requires s.running
    requires match s.phase
             case Connecting => e == Established
             case Fetching => e.SnapshotReplied?
             case Handoff => e == ReplayBuffer
             case Serving => e == ServiceEnded
             case _ => false
    ensures var stopped := Step(s, Stop);
            var idle := Step(stopped, e);
            var again := Step(idle, Start);
            && !stopped.running && stopped.mode == Disconnected && !stopped.reconnect && stopped.phase == s.phase
            && idle.phase == Idle && idle.mode == Disconnected && idle.emitted == s.emitted && idle.resyncs == s.resyncs
            && again.phase == Connecting && again.running && again.mode == Buffering && !again.reconnect
  {
  }

  /** No step counts a resync without giving up; only a lost connection does so without asking for one. */
  lemma {:induction false} CountedIsGivenUp(s: FeedState, e: Event)
    ensures var t := Step(s, e);
            t.resyncs != s.resyncs ==>
              t.resyncs == s.resyncs + 1 && t.mode == Buffering && t.buffer == [] && (t.reconnect || e.ServiceEnded?)
  {
    if e.ReplayBuffer? { AbortedReplay(s, s.buffer[StaleCount(s.buffer, s.lastSequence)..]); }
  }

  // ---------------------------------------------------------------- which snapshots are installed

  /** The checksum, if there is one, matches, and both sides list something. */
  predicate Intact(x: Snapshot) {
    (x.checksum == None || x.checksum == Some(x.localChecksum)) && |x.bids| > 0 && |x.asks| > 0
  }

  /** A fetched snapshot is announced and installed exactly if its checksum, when it has one, matches and both
      sides list something; else the loop connects again with nothing sent. An installed one is handed to
      the replay exactly if it reaches the first buffered diff, and fetched again otherwise. */
  lemma {:induction false} ReplyInstalls(s: FeedState, x: Snapshot)
    requires s.phase == Fetching && s.running
    ensures var t := Step(s, SnapshotReplied(Parsed(x)));
            && t.running && t.resyncs == s.resyncs && t.buffer == s.buffer && t.mode == s.mode
            && if Intact(x) then
                 && t.emitted == s.emitted + [OnSnapshot(x)] && t.lastSequence == x.sequence
                 && t.phase == if s.buffer == [] || s.buffer[0].first <= x.sequence then Handoff else Fetching
               else t.emitted == s.emitted && t.lastSequence == s.lastSequence && t.phase == Connecting
  {
  }

  // ---------------------------------------------------------------- silence until it is live again

  /** How much of the way back has been gone: a connection, a usable snapshot, a replay, and going live, in
      this order. */
  function StageOf(phase: Phase): nat {
    match phase
    case Fetching => 1
    case Handoff => 2
    case Replayed => 3
    case _ => 0
  }

  predicate Advances(stage: nat, e: Event) {
    || (stage == 0 && e == Established)
    || (stage == 1 && e.SnapshotReplied? && e.reply.Parsed? && Intact(e.reply.snapshot))
    || (stage == 2 && e == ReplayBuffer)
    || (stage == 3 && e == GoLive)
  }

  function Stage(start: nat, events: seq<Event>): nat
    decreases |events|
  {
    if events == [] then start
    else
      var stage := Stage(start, events[..|events| - 1]);
      if Advances(stage, events[|events| - 1]) then stage + 1 else stage
  }

  predicate NeverStopped(events: seq<Event>) {
    forall i :: 0 <= i < |events| ==> events[i] != Stop
  }

  /** While the way back is not complete the handler buffers, and its loop is no further than the stages say. */
  ghost predicate OnTheWay(s: FeedState, stage: nat) {
    stage < 4 ==> s.mode == Buffering && StageOf(s.phase) <= stage
  }

  lemma {:induction false} StepOnTheWay(s: FeedState, stage: nat, e: Event)
    requires OnTheWay(s, stage) && e != Stop
    ensures OnTheWay(Step(s, e), if Advances(stage, e) then stage + 1 else stage)
  {
    if e.ReplayBuffer? && s.mode == Buffering {
      ReplayMode(s, s.buffer[StaleCount(s.buffer, s.lastSequence)..]);
    }
  }

  lemma {:induction false} ReplayMode(s: FeedState, ds: seq<Diff>)
    requires s.mode == Buffering
    ensures Replay(s, ds).0.mode == Buffering
    decreases |ds|
  {
    if ds != [] && Bridges(s.lastSequence, ds[0]) { ReplayMode(Apply(s, ds[0]), ds[1..]); }
  }

  lemma {:induction false} RunOnTheWay(s: FeedState, events: seq<Event>)
    requires s.mode == Buffering && NeverStopped(events)
    ensures OnTheWay(Run(s, events), Stage(StageOf(s.phase), events))
    decreases |events|
  {
    if events != [] {
      var n := |events| - 1;
      RunOnTheWay(s, events[..n]);
      RunSplit(s, events[..n], [events[n]]);
      assert events == events[..n] + [events[n]] && [events[n]][1..] == [];
      var t := Run(s, events[..n]);
      assert Run(t, [events[n]]) == Run(Step(t, events[n]), []) == Step(t, events[n]);
      StepOnTheWay(t, Stage(StageOf(s.phase), events[..n]), events[n]);
    }
  }

  /** Once it has given up, and as long as nobody stops it, no message reaches the consumer until a connection,
      a usable snapshot, a replay and going live have come in this order, less what of these its loop had
      behind it already. */
  lemma {:induction false} SilentUntilLive(s: FeedState, events: seq<Event>, m: BinanceFeed.Message)
    requires s.mode == Buffering && NeverStopped(events) && Stage(StageOf(s.phase), events) < 4
    ensures var t := Run(s, events);
            t.mode == Buffering && Step(t, Message(m)).emitted == t.emitted
            && Step(t, Message(m)).lastSequence == t.lastSequence
  {
    RunOnTheWay(s, events);
  }

  // ---------------------------------------------------------------- and back

  /** The way back from a gap: the loop ends its service, connects, buffers `early`, takes a snapshot that
      reaches them, replays and goes live. It is then streaming at the later of the snapshot and the last
      diff, having resynced exactly once. */
  lemma {:induction false} GapIsRecovered(s: FeedState, d: Diff, early: seq<Diff>, snapshot: Snapshot)
    requires s.mode == Streaming && s.phase == Serving && s.running
    requires d.first <= d.last && d.first > s.lastSequence + 1
    requires Intact(snapshot) && Contiguous(early) && |early| <= MAX_BUFFER_SIZE
    requires early != [] ==> early[0].first <= snapshot.sequence
    ensures var gone := Step(s, Message(Depth(d)));
            var t := Synchronised(Step(gone, ServiceEnded), early, snapshot);
            && t.mode == Streaming && t.phase == Serving && t.running && !t.reconnect
            && t.resyncs == s.resyncs + 1 && t.lastSequence == LastId(early, snapshot.sequence)
  {
    GapGivesUp(s, d);
    var gone := Step(s, Message(Depth(d)));
    var ended := Step(gone, ServiceEnded);
    assert ended.phase == Connecting && ended.running && ended.resyncs == s.resyncs + 1;
    SynchronisedComplete(ended, early, snapshot);
  }

  /** Likewise from a handoff that gave up, whose loop connects at once. */
  lemma {:induction false} AbortIsRecovered(s: FeedState, early: seq<Diff>, snapshot: Snapshot)
    requires s.phase == Handoff && s.running && Step(s, ReplayBuffer).phase != Replayed
    requires Intact(snapshot) && Contiguous(early) && |early| <= MAX_BUFFER_SIZE
    requires early != [] ==> early[0].first <= snapshot.sequence
    ensures var t := Synchronised(Step(s, ReplayBuffer), early, snapshot);
            && t.mode == Streaming && t.phase == Serving && t.running && !t.reconnect
            && t.resyncs == s.resyncs + 1 && t.lastSequence == LastId(early, snapshot.sequence)
  {
    HandoffOrGiveUp(s);
    SynchronisedComplete(Step(s, ReplayBuffer), early, snapshot);
  }
}
