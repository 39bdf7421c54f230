/** The lock-free log ring of one producer and one writer thread: a first-in first-out queue, the
    interleaved atomic steps of the two sides, and the ring as an object. */
module LogRing {
  import opened Common

  const RING_SIZE: nat := 2048
  const MAX_TEXT: nat := 495

  datatype Entry = Entry(stamp: int, level: nat, text: string)

  /** What fits in the message buffer, with its terminator. */
  function Clip(text: string): string {
    if |text| <= MAX_TEXT then text else text[..MAX_TEXT]
  }

  // ---------------------------------------------------------------- counters

  /** An unsigned 64-bit counter after n increments. */
  function Wrap(n: nat): UInt64 {
    n % 0x1_0000_0000_0000_0000
  }

  function Minus(a: UInt64, b: UInt64): UInt64 {
    if a >= b then a - b else a - b + 0x1_0000_0000_0000_0000
  }

  function Increment(a: UInt64): UInt64 {
    if a == 0xFFFF_FFFF_FFFF_FFFF then 0 else a + 1
  }

  lemma {:induction false} WrapDistance(a: nat, b: nat)
    requires b <= a <= b + RING_SIZE
    ensures Minus(Wrap(a), Wrap(b)) == a - b
  {
  }

  lemma {:induction false} WrapNext(n: nat)
    ensures Increment(Wrap(n)) == Wrap(n + 1)
  {
  }

  lemma {:induction false} WrapIndex(n: nat)
    ensures Wrap(n) % RING_SIZE == n % RING_SIZE
  {
    var q := n / 0x1_0000_0000_0000_0000;
    assert n == q * 0x1_0000_0000_0000_0000 + Wrap(n);
    assert q * 0x1_0000_0000_0000_0000 == (q * 0x20_0000_0000_0000) * RING_SIZE;
    ModAdd(q * 0x20_0000_0000_0000, Wrap(n));
  }

  lemma {:induction false} ModAdd(k: nat, r: nat)
    ensures (k * RING_SIZE + r) % RING_SIZE == r % RING_SIZE
  {
  }

  /** Two counts less than a ring apart use different slots. */
  lemma {:induction false} SlotsApart(a: nat, b: nat)
    requires b < a < b + RING_SIZE
    ensures a % RING_SIZE != b % RING_SIZE
  {
  }

  // ---------------------------------------------------------------- the queue it should be

  datatype Queue = Queue(accepted: seq<Entry>, written: seq<Entry>, dropped: nat)

  ghost predicate ValidQueue(q: Queue) {
    q.written <= q.accepted && |q.accepted| <= |q.written| + RING_SIZE
  }

  /** A push is taken when there is room, or dropped; the writer takes the oldest entry. */
  ghost predicate QueueStep(q: Queue, r: Queue) {
    || r == q
    || (|q.accepted| < |q.written| + RING_SIZE && r.written == q.written && r.dropped == q.dropped
        && |r.accepted| == |q.accepted| + 1 && q.accepted <= r.accepted)
    || r == q.(dropped := q.dropped + 1)
    || (|q.written| < |q.accepted| && r == q.(written := q.written + [q.accepted[|q.written|]]))
  }

  // ---------------------------------------------------------------- the machine

  /** Where a push is: `seen` is how many entries had been written when it loaded the head. */
  datatype Producer =
    | Resting
    | TailLoaded(entry: Entry, tail: UInt64)
    | HeadLoaded(entry: Entry, tail: UInt64, head: UInt64, seen: nat)
    | StampWritten(entry: Entry, tail: UInt64)
    | LevelWritten(entry: Entry, tail: UInt64)
    | TextTorn(entry: Entry, tail: UInt64)
    | TextWritten(entry: Entry, tail: UInt64)

  /** Where a drain is: `limit` is how many entries had been accepted when it loaded the tail. */
  datatype Consumer =
    | Polling
    | HeadRead(head: UInt64)
    | TailRead(head: UInt64, tail: UInt64, limit: nat)
    | StampRead(head: UInt64, stamp: int)
    | LevelRead(head: UInt64, stamp: int, level: nat)
    | TextRead(head: UInt64, entry: Entry)
    | Drained

  /** The writer thread loops, then `stop` drains once more itself. */
  datatype Duty = Looping | Stopping | Stopped

  datatype Machine = Machine(
    head: UInt64, tail: UInt64, slots: seq<Entry>, running: bool,
    producer: Producer, consumer: Consumer, duty: Duty, pushes: nat, queue: Queue)

  datatype Event =
    | BeginPush(stamp: int, level: nat, text: string)
    | ProducerStep
    | TearText(text: string)
    | ConsumerStep
    | RequestStop

  function ProducerNext(m: Machine): Machine
    requires |m.slots| == RING_SIZE
  {
    match m.producer
    case Resting => m
    case TailLoaded(e, tail) => m.(producer := HeadLoaded(e, tail, m.head, |m.queue.written|))
    case HeadLoaded(e, tail, head, _) =>
      if Minus(tail, head) >= RING_SIZE then
        m.(producer := Resting, queue := m.queue.(dropped := m.queue.dropped + 1))
      else
        var i := tail % RING_SIZE;
        m.(producer := StampWritten(e, tail), slots := m.slots[i := m.slots[i].(stamp := e.stamp)])
    case StampWritten(e, tail) =>
      var i := tail % RING_SIZE;
      m.(producer := LevelWritten(e, tail), slots := m.slots[i := m.slots[i].(level := e.level)])
    case LevelWritten(e, tail) =>
      var i := tail % RING_SIZE;
      m.(producer := TextWritten(e, tail), slots := m.slots[i := m.slots[i].(text := e.text)])
    case TextTorn(e, tail) =>
      var i := tail % RING_SIZE;
      m.(producer := TextWritten(e, tail), slots := m.slots[i := m.slots[i].(text := e.text)])
    case TextWritten(e, tail) =>
      m.(producer := Resting, tail := Increment(tail), queue := m.queue.(accepted := m.queue.accepted + [e]))
  }

  function ConsumerNext(m: Machine): Machine
    requires |m.slots| == RING_SIZE
  {
    match m.consumer
    case Polling => m.(consumer := HeadRead(m.head))
    case HeadRead(head) => m.(consumer := TailRead(head, m.tail, |m.queue.accepted|))
    case TailRead(head, tail, _) =>
      if head == tail then m.(consumer := Drained)
      else m.(consumer := StampRead(head, m.slots[head % RING_SIZE].stamp))
    case StampRead(head, stamp) => m.(consumer := LevelRead(head, stamp, m.slots[head % RING_SIZE].level))
    case LevelRead(head, stamp, level) =>
      m.(consumer := TextRead(head, Entry(stamp, level, m.slots[head % RING_SIZE].text)))
    case TextRead(head, e) =>
      m.(consumer := Polling, head := Increment(head), queue := m.queue.(written := m.queue.written + [e]))
    case Drained =>
      match m.duty
      case Looping => if m.running then m.(consumer := Polling) else m.(consumer := Polling, duty := Stopping)
      case Stopping => m.(duty := Stopped)
      case Stopped => m
  }

  function Step(m: Machine, e: Event): Machine
    requires |m.slots| == RING_SIZE
    ensures |Step(m, e).slots| == RING_SIZE
  {
    match e
    case BeginPush(stamp, level, text) =>
      if m.producer != Resting then m
      else m.(producer := TailLoaded(Entry(stamp, level, Clip(text)), m.tail), pushes := m.pushes + 1)
    case ProducerStep => ProducerNext(m)
    case TearText(text) =>
      if m.producer.LevelWritten? || m.producer.TextTorn? then
        var i := m.producer.tail % RING_SIZE;
        m.(producer := TextTorn(m.producer.entry, m.producer.tail),
           slots := m.slots[i := m.slots[i].(text := text)])
      else m
    case ConsumerStep => ConsumerNext(m)
    case RequestStop => m.(running := false)
  }

  function Initial(): Machine {
    Machine(0, 0, seq(RING_SIZE, _ => Entry(0, 0, "")), true, Resting, Polling, Looping, 0, Queue([], [], 0))
  }

  function Run(m: Machine, events: seq<Event>): Machine
    requires |m.slots| == RING_SIZE
    ensures |Run(m, events).slots| == RING_SIZE
    decreases |events|
  {
    if events == [] then m else Run(Step(m, events[0]), events[1..])
  }

  // ---------------------------------------------------------------- invariant

  predicate Filling(p: Producer) {
    p.StampWritten? || p.LevelWritten? || p.TextTorn? || p.TextWritten?
  }

  predicate Reading(c: Consumer) {
    c.StampRead? || c.LevelRead? || c.TextRead?
  }

  ghost predicate CountersOk(m: Machine) {
    && ValidQueue(m.queue)
    && m.tail == Wrap(|m.queue.accepted|) && m.head == Wrap(|m.queue.written|)
    && m.pushes == |m.queue.accepted| + m.queue.dropped + if m.producer.Resting? then 0 else 1
  }

  ghost predicate SlotsOk(m: Machine)
    requires |m.slots| == RING_SIZE
  {
    forall i :: |m.queue.written| <= i < |m.queue.accepted| ==> m.slots[i % RING_SIZE] == m.queue.accepted[i]
  }

  ghost predicate ProducerOk(m: Machine)
    requires |m.slots| == RING_SIZE
  {
    var a, w := |m.queue.accepted|, |m.queue.written|;
    var slot := m.slots[a % RING_SIZE];
    (!m.producer.Resting? ==> m.producer.tail == m.tail) &&
    match m.producer
    case Resting => true
    case TailLoaded(_, _) => true
    case HeadLoaded(_, _, head, seen) => head == Wrap(seen) && seen <= w && a <= seen + RING_SIZE
    case StampWritten(e, _) => a < w + RING_SIZE && slot.stamp == e.stamp
    case LevelWritten(e, _) => a < w + RING_SIZE && slot.stamp == e.stamp && slot.level == e.level
    case TextTorn(e, _) => a < w + RING_SIZE && slot.stamp == e.stamp && slot.level == e.level
    case TextWritten(e, _) => a < w + RING_SIZE && slot == e
  }

  ghost predicate ConsumerOk(m: Machine) {
    var a, w := |m.queue.accepted|, |m.queue.written|;
    match m.consumer
    case Polling => m.duty != Stopped
    case HeadRead(head) => head == m.head && m.duty != Stopped
    case TailRead(head, tail, limit) =>
      head == m.head && tail == Wrap(limit) && w <= limit <= a && limit <= w + RING_SIZE && m.duty != Stopped
    case StampRead(head, stamp) =>
      head == m.head && w < a && stamp == m.queue.accepted[w].stamp && m.duty != Stopped
    case LevelRead(head, stamp, level) =>
      head == m.head && w < a && stamp == m.queue.accepted[w].stamp && level == m.queue.accepted[w].level
      && m.duty != Stopped
    case TextRead(head, e) => head == m.head && w < a && e == m.queue.accepted[w] && m.duty != Stopped
    case Drained => true
  }

  ghost predicate Inv(m: Machine) {
    |m.slots| == RING_SIZE && CountersOk(m) && SlotsOk(m) && ProducerOk(m) && ConsumerOk(m)
  }

  /** While the producer fills a slot, the writer is never reading that slot. */
  lemma {:induction false} NoSlotReadWhileWritten(m: Machine)
    requires Inv(m) && Filling(m.producer) && Reading(m.consumer)
    ensures m.producer.tail % RING_SIZE != m.consumer.head % RING_SIZE
  {
    WrapIndex(|m.queue.accepted|);
    WrapIndex(|m.queue.written|);
    SlotsApart(|m.queue.accepted|, |m.queue.written|);
  }

  /** Writing into the next free slot touches no entry that is still waiting. */
  lemma {:induction false} FillKeepsWaiting(m: Machine, e: Entry)
    requires |m.slots| == RING_SIZE && SlotsOk(m)
    requires |m.queue.written| <= |m.queue.accepted| < |m.queue.written| + RING_SIZE
    ensures SlotsOk(m.(slots := m.slots[|m.queue.accepted| % RING_SIZE := e]))
  {
    var a := |m.queue.accepted|;
    forall i | |m.queue.written| <= i < a
      ensures i % RING_SIZE != a % RING_SIZE
    {
      SlotsApart(a, i);
    }
  }

  lemma {:induction false} LoadKeepsInv(m: Machine)
    requires Inv(m) && (m.producer.TailLoaded? || m.producer.HeadLoaded?)
    ensures Inv(ProducerNext(m)) && QueueStep(m.queue, ProducerNext(m).queue)
  {
    var a := |m.queue.accepted|;
    WrapIndex(a);
    if m.producer.HeadLoaded? {
      WrapDistance(a, m.producer.seen);
      if Minus(m.producer.tail, m.producer.head) < RING_SIZE {
        FillKeepsWaiting(m, m.slots[a % RING_SIZE].(stamp := m.producer.entry.stamp));
      }
    }
  }

  lemma {:induction false} FillKeepsInv(m: Machine)
    requires Inv(m) && (m.producer.StampWritten? || m.producer.LevelWritten? || m.producer.TextTorn?)
    ensures Inv(ProducerNext(m)) && ProducerNext(m).queue == m.queue
  {
    var a := |m.queue.accepted|;
    var e := m.producer.entry;
    WrapIndex(a);
    FillKeepsWaiting(m, if m.producer.StampWritten? then m.slots[a % RING_SIZE].(level := e.level)
                        else m.slots[a % RING_SIZE].(text := e.text));
  }

  lemma {:induction false} CommitKeepsInv(m: Machine)
    requires Inv(m) && m.producer.TextWritten?
    ensures Inv(ProducerNext(m)) && QueueStep(m.queue, ProducerNext(m).queue)
  {
    WrapNext(|m.queue.accepted|);
  }

  lemma {:induction false} ProducerKeepsInv(m: Machine)
    requires Inv(m)
    ensures Inv(ProducerNext(m)) && QueueStep(m.queue, ProducerNext(m).queue)
  {
    if m.producer.TailLoaded? || m.producer.HeadLoaded? {
      LoadKeepsInv(m);
    } else if m.producer.TextWritten? {
      CommitKeepsInv(m);
    } else if !m.producer.Resting? {
      FillKeepsInv(m);
    }
  }

  lemma {:induction false} TakeKeepsInv(m: Machine)
    requires Inv(m) && m.consumer.TextRead?
    ensures Inv(ConsumerNext(m)) && QueueStep(m.queue, ConsumerNext(m).queue)
  {
    WrapNext(|m.queue.written|);
  }

  lemma {:induction false} CopyKeepsInv(m: Machine)
    requires Inv(m) && (m.consumer.TailRead? || m.consumer.StampRead? || m.consumer.LevelRead?)
    ensures Inv(ConsumerNext(m)) && ConsumerNext(m).queue == m.queue
  {
    WrapIndex(|m.queue.written|);
    if m.consumer.TailRead? {
      WrapDistance(m.consumer.limit, |m.queue.written|);
    }
  }

  lemma {:induction false} ConsumerKeepsInv(m: Machine)
    requires Inv(m)
    ensures Inv(ConsumerNext(m)) && QueueStep(m.queue, ConsumerNext(m).queue)
  {
    if m.consumer.TextRead? {
      TakeKeepsInv(m);
    } else if m.consumer.TailRead? || m.consumer.StampRead? || m.consumer.LevelRead? {
      CopyKeepsInv(m);
    }
  }

  lemma {:induction false} StepKeepsInv(m: Machine, e: Event)
    requires Inv(m)
    ensures Inv(Step(m, e)) && QueueStep(m.queue, Step(m, e).queue)
  {
    match e
    case ProducerStep => ProducerKeepsInv(m);
    case ConsumerStep => ConsumerKeepsInv(m);
    case TearText(text) =>
      if m.producer.LevelWritten? || m.producer.TextTorn? {
        WrapIndex(|m.queue.accepted|);
        FillKeepsWaiting(m, m.slots[|m.queue.accepted| % RING_SIZE].(text := text));
      }
    case _ =>
  }

  /** Main result: under every interleaving the ring is a bounded first-in first-out queue. What has been
      written is a prefix of what was accepted, at most a ring's worth waits, and every push that has
      returned was either accepted or counted as dropped. */
  lemma {:induction false} RingIsQueue(events: seq<Event>)
    ensures var m := Run(Initial(), events);
            && Inv(m)
            && m.queue.written <= m.queue.accepted && |m.queue.accepted| - |m.queue.written| <= RING_SIZE
            && (m.producer.Resting? ==> m.pushes == |m.queue.accepted| + m.queue.dropped)
  {
    RunKeepsInv(Initial(), events);
  }

  lemma {:induction false} RunKeepsInv(m: Machine, events: seq<Event>)
    requires Inv(m)
    ensures Inv(Run(m, events))
    decreases |events|
  {
    if events != [] {
      StepKeepsInv(m, events[0]);
      RunKeepsInv(Step(m, events[0]), events[1..]);
    }
  }

  /** A push is dropped only if the ring was full when it looked. */
  lemma {:induction false} DropsOnlyWhenFull(m: Machine)
    requires Inv(m) && m.producer.HeadLoaded?
    ensures Step(m, ProducerStep).queue.dropped > m.queue.dropped <==>
            |m.queue.accepted| == m.producer.seen + RING_SIZE
  {
    WrapDistance(|m.queue.accepted|, m.producer.seen);
  }

  // ---------------------------------------------------------------- stop

  /** After the stop request, with no push under way: what the last drain has established so far. */
  ghost predicate Quiet(m: Machine, accepted: seq<Entry>) {
    && Inv(m) && !m.running && m.producer.Resting? && m.queue.accepted == accepted
    && (m.duty != Looping && m.consumer.TailRead? ==> m.consumer.limit == |accepted|)
    && (m.duty != Looping && m.consumer.Drained? ==> m.queue.written == accepted)
  }

  lemma {:induction false} QuietStep(m: Machine, accepted: seq<Entry>, e: Event)
    requires Quiet(m, accepted) && !e.BeginPush?
    ensures Quiet(Step(m, e), accepted)
  {
    StepKeepsInv(m, e);
    if m.consumer.TailRead? {
      WrapDistance(m.consumer.limit, |m.queue.written|);
    }
  }

  /** Stopping the logger loses nothing: if the stop request finds no push under way and none begins
      after it, then once `stop` has returned everything accepted has been written. */
  lemma {:induction false} StopWritesEverything(m: Machine, events: seq<Event>)
    requires Inv(m) && m.duty == Looping && m.producer.Resting?
    requires forall i :: 0 <= i < |events| ==> !events[i].BeginPush?
    ensures var end := Run(Step(m, RequestStop), events);
            end.duty == Stopped ==> end.queue.written == m.queue.accepted == end.queue.accepted
  {
    QuietRun(Step(m, RequestStop), m.queue.accepted, events);
  }

  lemma {:induction false} QuietRun(m: Machine, accepted: seq<Entry>, events: seq<Event>)
    requires Quiet(m, accepted) && forall i :: 0 <= i < |events| ==> !events[i].BeginPush?
    ensures Quiet(Run(m, events), accepted)
    decreases |events|
  {
    if events != [] {
      QuietStep(m, accepted, events[0]);
      QuietRun(Step(m, events[0]), accepted, events[1..]);
    }
  }

  // ---------------------------------------------------------------- the ring as an object

  /** The logger called from one thread at a time; `queue` is what the ring stands for, `output` what
      has reached the error stream. */
  class AsyncLogger {
    var head: UInt64
    var tail: UInt64
    const entries: array<Entry>
    var dropped: nat
    var running: bool
    var output: seq<Entry>
    ghost var accepted: seq<Entry>

    ghost predicate Valid()
      reads this, entries
    {
      && entries.Length == RING_SIZE && ValidQueue(Contents())
      && tail == Wrap(|accepted|) && head == Wrap(|output|)
      && forall i :: |output| <= i < |accepted| ==> entries[i % RING_SIZE] == accepted[i]
    }

    ghost function Contents(): Queue
      reads this
    {
      Queue(accepted, output, dropped)
    }

    constructor ()
      ensures Valid() && fresh(entries) && Contents() == Queue([], [], 0) && running
    {
      head, tail, dropped, running, output, accepted := 0, 0, 0, true, [], [];
      entries := new Entry[RING_SIZE](_ => Entry(0, 0, ""));
    }

    method Push(stamp: int, level: nat, text: string)
      requires Valid()
      modifies this, entries
      ensures Valid() && running == old(running)
      ensures Contents() ==
              if |old(accepted)| == |old(output)| + RING_SIZE
              then old(Contents()).(dropped := old(dropped) + 1)
              else old(Contents()).(accepted := old(accepted) + [Entry(stamp, level, Clip(text))])
    {
      WrapDistance(|accepted|, |output|);
      if Minus(tail, head) >= RING_SIZE {
        dropped := dropped + 1;
        return;
      }
      WrapIndex(|accepted|);
      WrapNext(|accepted|);
      forall i | |output| <= i < |accepted|
        ensures i % RING_SIZE != |accepted| % RING_SIZE
      {
        SlotsApart(|accepted|, i);
      }
      entries[tail % RING_SIZE] := Entry(stamp, level, Clip(text));
      tail := Increment(tail);
      accepted := accepted + [Entry(stamp, level, Clip(text))];
    }

    /** Writes out everything that waits, oldest first. */
    method Drain()
      requires Valid()
      modifies this
      ensures Valid() && running == old(running)
      ensures Contents() == old(Contents()).(written := old(accepted))
    {
      while head != tail
        invariant Valid() && running == old(running) && accepted == old(accepted) && dropped == old(dropped)
        invariant head != tail ==> |output| < |accepted|
        decreases |accepted| - |output|
      {
        WrapIndex(|output|);
        WrapNext(|output|);
        output := output + [entries[head % RING_SIZE]];
        head := Increment(head);
      }
      WrapDistance(|accepted|, |output|);
    }

    method Stop()
      requires Valid()
      modifies this
      ensures Valid() && !running
      ensures Contents() ==
              if old(running) then old(Contents()).(written := old(accepted)) else old(Contents())
    {
      if !running {
        return;
      }
      running := false;
      Drain();
    }
  }
}
