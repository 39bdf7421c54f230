/** What a refused OKX message means: the handler gives up its stream, asks for a new connection, and sends
    nothing until a snapshot with both sides has come. */
module OkxRecovery {
  import opened Common
  import opened MarketData
  import opened OkxFeed

  /** The handler has given up: it buffers afresh and asks for a new connection. */
  ghost predicate GaveUp(t: Feed) {
    t.mode == Buffering && t.reconnect && t.buffer == []
  }

  /** The diff continues from the stored id: it names it, or names none and is later. */
  predicate Continues(last: UInt64, d: Diff) {
    d.prevSeqId == last != 0 || (d.prevSeqId == 0 && d.seqId > last)
  }

  /** While streaming, a diff that does not continue from the stored id, or would leave a book with another
      checksum than the one it carries, is refused whole: the handler gives up, and book, id and consumer are
      as they were. Every other diff is taken. */
  lemma {:induction false} RefusedGivesUp(s: Feed, d: Diff)
    requires s.mode == Streaming
    ensures var t := Step(s, Received(Update(d)));
            var fits := d.checksum == None || d.checksum == Some(Checksum(ApplyDiff(s.book, d)));
            if Continues(s.last, d) && fits then
              t.mode == Streaming && t.last == d.seqId && t.book == ApplyDiff(s.book, d)
              && t.buffer == s.buffer && t.reconnect == s.reconnect
            else
              GaveUp(t) && t.book == s.book && t.last == s.last && t.emitted == s.emitted && t.session == s.session
  {
  }

  /** So does an error event, an unreadable snapshot, one with an empty side, and the diff that finds the buffer
      full. */
  lemma {:induction false} BrokenGivesUp(s: Feed, m: Message)
    requires || m == ErrorEvent || m == BadSnapshot
             || (m.BookSnapshot? && (|m.bids| == 0 || |m.asks| == 0))
             || (m.Update? && s.mode != Streaming && |s.buffer| >= MAX_BUFFER_SIZE)
    ensures var t := Step(s, Received(m));
            GaveUp(t) && t.book == s.book && t.last == s.last && t.emitted == s.emitted
  {
  }

  /** A snapshot with both sides is announced and installed; it streams at once where nothing waited. */
  lemma {:induction false} SnapshotStreams(s: Feed, x: UInt64, bids: seq<Level>, asks: seq<Level>)
    requires |bids| > 0 && |asks| > 0 && s.buffer == []
    ensures var t := Step(s, Received(BookSnapshot(x, bids, asks)));
            && t.mode == Streaming && t.last == x && t.session == Since(x, t.book, [])
            && t.book == Book(ApplyLevels(Bid, [], bids), ApplyLevels(Ask, [], asks)) && t.reconnect == s.reconnect
            && t.emitted == s.emitted + [OnSnapshot(Snapshot(x, PriceLevels(bids), PriceLevels(asks), None, 0))]
  {
  }

  predicate NoSnapshotIn(events: seq<Event>) {
    forall i :: 0 <= i < |events| ==>
      !(events[i].Received? && events[i].message.BookSnapshot?
        && |events[i].message.bids| > 0 && |events[i].message.asks| > 0)
  }

  /** Once it has given up, no event at all reaches the consumer until a snapshot with both sides comes. */
  lemma {:induction false} SilentUntilSnapshot(s: Feed, events: seq<Event>)
    requires s.mode != Streaming && NoSnapshotIn(events)
    ensures Run(s, events).emitted == s.emitted && Run(s, events).mode != Streaming
    decreases |events|
  {
    if events != [] { SilentUntilSnapshot(Step(s, events[0]), events[1..]); }
  }

  /** The way back: a new connection drops what is known and the request, the next snapshot streams. */
  lemma {:induction false} RefusedRecovers(s: Feed, d: Diff, x: UInt64, bids: seq<Level>, asks: seq<Level>)
    requires s.mode == Streaming && !Continues(s.last, d) && |bids| > 0 && |asks| > 0
    ensures var gone := Step(s, Received(Update(d)));
            var t := Step(Step(gone, Connected), Received(BookSnapshot(x, bids, asks)));
            && GaveUp(gone) && gone.emitted == s.emitted
            && t.mode == Streaming && t.last == x && !t.reconnect && t.buffer == []
            && t.emitted == s.emitted + [OnSnapshot(Snapshot(x, PriceLevels(bids), PriceLevels(asks), None, 0))]
  {
    RefusedGivesUp(s, d);
    SnapshotStreams(Step(Step(s, Received(Update(d))), Connected), x, bids, asks);
  }
}
