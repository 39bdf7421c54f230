/** The shared-memory ring of order-book ticks: a C++ publisher overwriting slots, a Python reader polling
    them. Words are copied one at a time, in any order on the writer's side; only the counter is atomic. */
module LobRing {
  import opened Common

  /** A field of a slot: a double, an integer, or the symbol's characters. */
  datatype Word = Real(value: real) | Int(n: int) | Label(text: string)

  /** One slot as its fields; the source has 65 of them. */
  type Words = seq<Word>

  // ---------------------------------------------------------------- the interleaved machine

  datatype Writer = Idle | Writing(tick: Words, done: set<nat>)

  /** `at` is the number being copied, `words` what has been copied of it, `limit` the counter at the poll. */
  datatype Reader = Closed | Resting | Reading(limit: nat, at: nat, words: Words)

  /** A finished slot read; `inTime` when `number > writeSeq - capacity` still held as it ended. */
  datatype Read = Read(number: nat, words: Words, inTime: bool)

  /** `origin` is the counter when the reader opened the ring; `skipped` maps each number given up to the
      counter at the poll that gave it up. */
  datatype Machine = Machine(
    capacity: nat, width: nat, writeSeq: nat, slots: seq<Words>, published: seq<Words>, writer: Writer,
    reader: Reader, origin: nat, last: nat, rows: seq<Read>, skipped: map<nat, nat>)

  datatype Event =
    | BeginPublish(tick: Words)
    | Scribble(k: nat, word: Word)
    | WriteWord(k: nat)
    | CommitPublish
    | Open
    | Poll
    | ReadWord

  /** Where a poll starts: what is older than one ring is given up. */
  function StartOf(last: nat, writeSeq: nat, capacity: nat): nat {
    Max(last, Max(0, writeSeq - capacity))
  }

  ghost predicate Shape(m: Machine) {
    m.capacity > 0 && |m.slots| == m.capacity && forall i :: 0 <= i < |m.slots| ==> |m.slots[i]| == m.width
  }

  function Put(m: Machine, k: nat, word: Word): Machine
    requires m.capacity > 0 && |m.slots| == m.capacity && k < |m.slots[m.writeSeq % m.capacity]|
  {
    var i := m.writeSeq % m.capacity;
    m.(slots := m.slots[i := m.slots[i][k := word]])
  }

  ghost function Step(m: Machine, e: Event): (n: Machine)
    requires Shape(m)
    ensures Shape(n)
  {
    match e
    case BeginPublish(tick) =>
      if m.writer.Idle? && |tick| == m.width then m.(writer := Writing(tick, {})) else m
    case Scribble(k, word) =>
      if m.writer.Writing? && k < m.width && k !in m.writer.done then Put(m, k, word) else m
    case WriteWord(k) =>
      if m.writer.Writing? && k < m.width && k < |m.writer.tick| then
        Put(m, k, m.writer.tick[k]).(writer := m.writer.(done := m.writer.done + {k}))
      else m
    case CommitPublish =>
      if m.writer.Writing? && (forall k :: 0 <= k < m.width ==> k in m.writer.done) then
        m.(writer := Idle, writeSeq := m.writeSeq + 1, published := m.published + [m.writer.tick])
      else m
    case Open =>
      if m.reader.Closed? then m.(reader := Resting, origin := m.writeSeq, last := m.writeSeq) else m
    case Poll => if m.reader.Resting? then PollNext(m) else m
    case ReadWord => if m.reader.Reading? then ReadNext(m) else m
  }

  /** The numbers from `last` to before `start`, each with the counter at the poll that gave it up. */
  function GivenUp(last: nat, start: nat, writeSeq: nat): (gone: map<nat, nat>)
    ensures forall s :: s in gone <==> last <= s < start
    ensures forall s :: s in gone ==> gone[s] == writeSeq
  {
    if start <= last then map[] else GivenUp(last, start - 1, writeSeq)[start - 1 := writeSeq]
  }

  function PollNext(m: Machine): Machine {
    var start := StartOf(m.last, m.writeSeq, m.capacity);
    var skipped := m.skipped + GivenUp(m.last, start, m.writeSeq);
    if start < m.writeSeq then m.(reader := Reading(m.writeSeq, start, []), skipped := skipped)
    else m.(last := m.writeSeq, skipped := skipped)
  }

  /** Copies the next word, or files the finished row and moves to the next slot. */
  function ReadNext(m: Machine): Machine
    requires m.reader.Reading? && m.capacity > 0 && |m.slots| == m.capacity
    requires forall i :: 0 <= i < |m.slots| ==> |m.slots[i]| == m.width
  {
    var r := m.reader;
    if |r.words| < m.width then
      m.(reader := r.(words := r.words + [m.slots[r.at % m.capacity][|r.words|]]))
    else
      var rows := m.rows + [Read(r.at, r.words, r.at > m.writeSeq - m.capacity)];
      if r.at + 1 < r.limit then m.(rows := rows, reader := Reading(r.limit, r.at + 1, []))
      else m.(rows := rows, reader := Resting, last := r.limit)
  }

  function Initial(capacity: nat, blank: Words): Machine {
    Machine(capacity, |blank|, 0, seq(capacity, _ => blank), [], Idle, Closed, 0, 0, [], map[])
  }

  ghost function Run(m: Machine, events: seq<Event>): Machine
    requires Shape(m)
    decreases |events|
  {
    if events == [] then m else Run(Step(m, events[0]), events[1..])
  }

  // ---------------------------------------------------------------- what is in the slots

  /** Numbers less than a ring apart live in different slots. */
  lemma {:induction false} SlotsApart(a: nat, b: nat, c: nat)
    requires 0 < c && b < a < b + c
    ensures a % c != b % c
  {
    if a % c == b % c {
      var p, q := a / c, b / c;
      assert a == p * c + a % c && b == q * c + b % c;
      assert a - b == (p - q) * c by { Distribute(p, q, c); }
      if p - q >= 1 { Scale(1, p - q, c); } else { Scale(p - q, 0, c); }
    }
  }

  lemma {:induction false} Distribute(p: int, q: int, c: int)
    ensures p * c - q * c == (p - q) * c
  {
  }

  lemma {:induction false} Scale(p: int, q: int, c: nat)
    requires p <= q
    ensures p * c <= q * c
  {
  }

  ghost predicate WriterOk(m: Machine)
    requires Shape(m)
  {
    && |m.published| == m.writeSeq
    && (m.writer.Writing? ==> |m.writer.tick| == m.width)
    && (forall k :: m.writer.Writing? && 0 <= k < m.width && k in m.writer.done ==>
          m.slots[m.writeSeq % m.capacity][k] == m.writer.tick[k])
  }

  function Oldest(m: Machine): int {
    Max(0, m.writeSeq - m.capacity + if m.writer.Idle? then 0 else 1)
  }

  /** Every slot still holds its latest tick, except the one being overwritten. */
  ghost predicate SlotsOk(m: Machine)
    requires Shape(m) && |m.published| == m.writeSeq
  {
    forall i :: Oldest(m) <= i < m.writeSeq ==> m.slots[i % m.capacity] == m.published[i]
  }

  /** What has been copied of a slot that has not come round yet is its tick so far. */
  ghost predicate CopyOk(m: Machine)
    requires |m.published| == m.writeSeq
  {
    m.reader.Reading? ==>
      && m.reader.at < m.reader.limit <= m.writeSeq && |m.reader.words| <= m.width
      && |m.published[m.reader.at]| == m.width
      && (m.reader.at > m.writeSeq - m.capacity ==> m.reader.words <= m.published[m.reader.at])
  }

  ghost predicate ReadsExact(m: Machine) {
    forall j :: 0 <= j < |m.rows| && m.rows[j].inTime ==>
      m.rows[j].number < |m.published| && m.rows[j].words == m.published[m.rows[j].number]
  }

  ghost predicate ContentsOk(m: Machine) {
    && Shape(m) && WriterOk(m) && SlotsOk(m) && CopyOk(m) && ReadsExact(m)
    && forall i :: 0 <= i < |m.published| ==> |m.published[i]| == m.width
  }

  lemma {:induction false} PutKeepsContents(m: Machine, k: nat, word: Word)
    requires ContentsOk(m) && m.writer.Writing? && k < m.width
    requires k in m.writer.done ==> word == m.writer.tick[k]
    ensures ContentsOk(Put(m, k, word))
  {
    forall i | Oldest(m) <= i < m.writeSeq
      ensures i % m.capacity != m.writeSeq % m.capacity
    {
      SlotsApart(m.writeSeq, i, m.capacity);
    }
  }

  lemma {:induction false} CommitKeepsContents(m: Machine)
    requires ContentsOk(m)
    ensures ContentsOk(Step(m, CommitPublish))
  {
    var r := Step(m, CommitPublish);
    if r.writeSeq > m.writeSeq {
      assert m.slots[m.writeSeq % m.capacity] == m.writer.tick;
      assert r.published[m.writeSeq] == m.writer.tick;
    }
  }

  lemma {:induction false} ReadKeepsContents(m: Machine)
    requires ContentsOk(m) && m.reader.Reading?
    ensures ContentsOk(ReadNext(m))
  {
    var at := m.reader.at;
    if at > m.writeSeq - m.capacity {
      assert m.slots[at % m.capacity] == m.published[at];
    }
  }

  lemma {:induction false} StepKeepsContents(m: Machine, e: Event)
    requires ContentsOk(m)
    ensures ContentsOk(Step(m, e))
  {
    match e
    case Scribble(k, word) =>
      if m.writer.Writing? && k < m.width && k !in m.writer.done { PutKeepsContents(m, k, word); }
    case WriteWord(k) =>
      if m.writer.Writing? && k < m.width && k < |m.writer.tick| {
        PutKeepsContents(m, k, m.writer.tick[k]);
      }
    case CommitPublish => CommitKeepsContents(m);
    case ReadWord => if m.reader.Reading? { ReadKeepsContents(m); }
    case _ =>
  }

  // ---------------------------------------------------------------- which numbers are read

  /** Every number before this one has been dealt with. */
  function Position(m: Machine): nat {
    if m.reader.Reading? then m.reader.at else m.last
  }

  predicate HasRead(rows: seq<Read>, s: nat) {
    exists j :: 0 <= j < |rows| && rows[j].number == s
  }

  ghost predicate Increasing(rows: seq<Read>, bound: nat) {
    && (forall j :: 0 <= j < |rows| ==> rows[j].number < bound)
    && (forall i, j :: 0 <= i < j < |rows| ==> rows[i].number < rows[j].number)
  }

  ghost predicate DeliveryOk(m: Machine) {
    && m.origin <= Position(m) <= m.writeSeq
    && (m.reader.Reading? ==> m.reader.at < m.reader.limit <= m.writeSeq)
    && Increasing(m.rows, Position(m))
    && (forall s: nat :: HasRead(m.rows, s) || s in m.skipped <==> m.origin <= s < Position(m))
    && (forall s :: s in m.skipped ==> s < m.skipped[s] - m.capacity && !HasRead(m.rows, s))
    && (m.reader.Closed? ==> m.origin == m.last)
  }

  lemma {:induction false} FiledRead(rows: seq<Read>, read: Read, s: nat)
    ensures HasRead(rows + [read], s) <==> HasRead(rows, s) || read.number == s
  {
    if HasRead(rows, s) {
      var j :| 0 <= j < |rows| && rows[j].number == s;
      assert (rows + [read])[j].number == s;
    }
    if read.number == s {
      assert (rows + [read])[|rows|].number == s;
    }
  }

  lemma {:induction false} ReadKeepsDelivery(m: Machine)
    requires Shape(m) && m.reader.Reading? && DeliveryOk(m)
    ensures DeliveryOk(ReadNext(m))
  {
    var r := ReadNext(m);
    if |m.reader.words| >= m.width {
      var read := r.rows[|m.rows|];
      assert r.rows == m.rows + [read] && Position(r) == m.reader.at + 1;
      forall s: nat
        ensures HasRead(r.rows, s) <==> HasRead(m.rows, s) || m.reader.at == s
      {
        FiledRead(m.rows, read, s);
      }
    }
  }

  lemma {:induction false} OpenKeepsDelivery(m: Machine)
    requires Shape(m) && DeliveryOk(m) && m.reader.Closed?
    ensures DeliveryOk(Step(m, Open))
  {
    var r := Step(m, Open);
    forall s: nat ensures !HasRead(m.rows, s) && s !in m.skipped {
      assert !(m.origin <= s < Position(m));
    }
    forall j | 0 <= j < |m.rows| ensures m.rows[j].number < r.writeSeq {
      assert m.rows[j].number < Position(m);
    }
  }

  lemma {:induction false} StepKeepsDelivery(m: Machine, e: Event)
    requires Shape(m) && DeliveryOk(m)
    ensures DeliveryOk(Step(m, e))
  {
    match e
    case ReadWord => if m.reader.Reading? { ReadKeepsDelivery(m); }
    case Open => if m.reader.Closed? { OpenKeepsDelivery(m); }
    case _ =>
  }

  // ---------------------------------------------------------------- over any run

  ghost predicate Inv(m: Machine) {
    ContentsOk(m) && DeliveryOk(m)
  }

  lemma {:induction false} StepKeepsInv(m: Machine, e: Event)
    requires Inv(m)
    ensures Inv(Step(m, e))
  {
    StepKeepsContents(m, e);
    StepKeepsDelivery(m, e);
  }

  lemma {:induction false} StepKeepsCapacity(m: Machine, e: Event)
    requires Shape(m)
    ensures Step(m, e).capacity == m.capacity
  {
  }

  lemma {:induction false} RunKeepsCapacity(m: Machine, events: seq<Event>)
    requires Shape(m)
    ensures Run(m, events).capacity == m.capacity
    decreases |events|
  {
    if events != [] {
      StepKeepsCapacity(m, events[0]);
      RunKeepsCapacity(Step(m, events[0]), events[1..]);
    }
  }

  lemma {:induction false} RunKeepsInv(m: Machine, events: seq<Event>)
    requires Inv(m)
    ensures Inv(Run(m, events))
    decreases |events|
  {
    if events != [] {
      StepKeepsInv(m, events[0]);
      RunKeepsInv(Step(m, events[0]), events[1..]);
    }
  }

  /** Main result: under every interleaving of the publisher's and the reader's steps, the numbers read
      strictly increase; between opening the ring and the present position every number was either read or
      given up, never both; one is given up only when it was more than a ring behind at that poll; and a
      row whose slot had not come round when its read ended is exactly the tick published. */
  lemma {:induction false} RingDelivers(capacity: nat, blank: Words, events: seq<Event>)
    requires capacity > 0
    ensures var m := Initial(capacity, blank);
            Shape(m) &&
            var n := Run(m, events);
            && (forall i, j :: 0 <= i < j < |n.rows| ==> n.rows[i].number < n.rows[j].number)
            && (forall s: nat :: n.origin <= s < Position(n) <==> HasRead(n.rows, s) || s in n.skipped)
            && (forall s :: s in n.skipped ==> s < n.skipped[s] - capacity && !HasRead(n.rows, s))
            && (forall j :: 0 <= j < |n.rows| && n.rows[j].inTime ==>
                  n.rows[j].number < |n.published| && n.rows[j].words == n.published[n.rows[j].number])
  {
    RunKeepsInv(Initial(capacity, blank), events);
    RunKeepsCapacity(Initial(capacity, blank), events);
  }

  // ---------------------------------------------------------------- the bound is exact

  ghost predicate Reaches(m: Machine, n: Machine) {
    Shape(m) && exists events: seq<Event> :: n == Run(m, events)
  }

  lemma {:induction false} RunSplit(m: Machine, first: seq<Event>, second: seq<Event>)
    requires Shape(m)
    ensures Shape(Run(m, first)) && Run(m, first + second) == Run(Run(m, first), second)
    decreases |first|
  {
    if first == [] {
      assert first + second == second;
    } else {
      RunSplit(Step(m, first[0]), first[1..], second);
      assert (first + second)[1..] == first[1..] + second;
    }
  }

  lemma {:induction false} ReachesOn(a: Machine, b: Machine, c: Machine)
    requires Reaches(a, b) && Reaches(b, c)
    ensures Reaches(a, c)
  {
    var first: seq<Event> :| b == Run(a, first);
    var second: seq<Event> :| c == Run(b, second);
    RunSplit(a, first, second);
  }

  lemma {:induction false} ReachesStep(m: Machine, e: Event, n: Machine)
    requires Shape(m) && n == Step(m, e)
    ensures Reaches(m, n) && Shape(n)
  {
    assert [e][1..] == [];
    assert Run(Step(m, e), []) == Step(m, e);
    assert Run(m, [e]) == n;
  }

  lemma {:induction false} ReachesItself(m: Machine)
    requires Shape(m)
    ensures Reaches(m, m)
  {
    assert Run(m, []) == m;
  }

  ghost function Upto(n: nat): set<nat> {
    if n == 0 then {} else Upto(n - 1) + {n - 1}
  }

  lemma {:induction false} UptoAll(n: nat)
    ensures forall k :: 0 <= k < n ==> k in Upto(n)
  {
    if n > 0 { UptoAll(n - 1); }
  }

  /** The slot after the first `k` words of the tick are in. */
  function Half(was: Words, tick: Words, k: nat): Words
    requires k <= |was| == |tick|
  {
    tick[..k] + was[k..]
  }

  /** The machine with its present slot replaced and the writer so far. */
  function Wrote(m: Machine, words: Words, writer: Writer): Machine
    requires m.capacity > 0 && |m.slots| == m.capacity
  {
    m.(slots := m.slots[m.writeSeq % m.capacity := words], writer := writer)
  }

  lemma {:induction false} WriteUpTo(m: Machine, tick: Words, k: nat)
    requires Shape(m) && m.writer == Writing(tick, {}) && |tick| == m.width && k <= m.width
    ensures Reaches(m, Wrote(m, Half(m.slots[m.writeSeq % m.capacity], tick, k), Writing(tick, Upto(k))))
  {
    var was := m.slots[m.writeSeq % m.capacity];
    var n := Wrote(m, Half(was, tick, k), Writing(tick, Upto(k)));
    if k == 0 {
      assert Half(was, tick, 0) == was && n == m;
      ReachesItself(m);
    } else {
      var before := Wrote(m, Half(was, tick, k - 1), Writing(tick, Upto(k - 1)));
      WriteUpTo(m, tick, k - 1);
      assert Half(was, tick, k - 1)[k - 1 := tick[k - 1]] == Half(was, tick, k);
      ReachesStep(before, WriteWord(k - 1), n);
      ReachesOn(m, before, n);
    }
  }

  /** A writer at rest can write a whole tick into its slot. */
  lemma {:induction false} WriteTick(m: Machine, tick: Words) returns (done: set<nat>)
    requires Shape(m) && m.writer.Idle? && |tick| == m.width
    ensures Reaches(m, Wrote(m, tick, Writing(tick, done))) && Shape(Wrote(m, tick, Writing(tick, done)))
    ensures forall k :: 0 <= k < m.width ==> k in done
  {
    done := Upto(m.width);
    UptoAll(m.width);
    var begun := m.(writer := Writing(tick, {}));
    ReachesStep(m, BeginPublish(tick), begun);
    WriteUpTo(begun, tick, m.width);
    var was := m.slots[m.writeSeq % m.capacity];
    assert Half(was, tick, m.width) == tick;
    assert Wrote(begun, tick, Writing(tick, done)) == Wrote(m, tick, Writing(tick, done));
    ReachesOn(m, begun, Wrote(m, tick, Writing(tick, done)));
  }

  lemma {:induction false} PublishTick(m: Machine, tick: Words)
    requires Shape(m) && m.writer.Idle? && |tick| == m.width
    ensures Reaches(m, Wrote(m, tick, Idle).(writeSeq := m.writeSeq + 1, published := m.published + [tick]))
  {
    var done := WriteTick(m, tick);
    var written := Wrote(m, tick, Writing(tick, done));
    var n := Wrote(m, tick, Idle).(writeSeq := m.writeSeq + 1, published := m.published + [tick]);
    ReachesStep(written, CommitPublish, n);
    ReachesOn(m, written, n);
  }

  /** Open and idle, with the same tick published `n` times into as many slots. */
  ghost predicate Filled(m: Machine, capacity: nat, tick: Words, n: nat) {
    && Shape(m) && m.capacity == capacity && m.width == |tick| && n <= capacity
    && m.writer.Idle? && m.reader.Resting? && m.rows == [] && m.last == 0
    && m.writeSeq == n && (n > 0 ==> m.slots[0] == tick)
    && forall i :: 0 <= i < |m.published| ==> m.published[i] == tick
  }

  lemma {:induction false} FillRing(capacity: nat, blank: Words, tick: Words, n: nat) returns (m: Machine)
    requires capacity > 0 && |blank| == |tick| && n <= capacity
    ensures Reaches(Initial(capacity, blank), m) && Filled(m, capacity, tick, n)
  {
    if n == 0 {
      m := Initial(capacity, blank).(reader := Resting);
      ReachesStep(Initial(capacity, blank), Open, m);
    } else {
      var before := FillRing(capacity, blank, tick, n - 1);
      m := Wrote(before, tick, Idle).(writeSeq := n, published := before.published + [tick]);
      PublishTick(before, tick);
      ReachesOn(Initial(capacity, blank), before, m);
    }
  }

  /** The reader is in the middle of slot 0, which holds these words. */
  ghost predicate Copying(m: Machine, limit: nat, slot: Words) {
    && Shape(m) && m.width == |slot| && m.slots[0] == slot && m.reader.Reading? && m.reader.at == 0
    && m.reader.limit == limit && |m.reader.words| <= m.width
  }

  lemma {:induction false} CopyUpTo(m: Machine, limit: nat, slot: Words, k: nat)
    requires Copying(m, limit, slot) && |m.reader.words| <= k <= m.width
    ensures Reaches(m, m.(reader := m.reader.(words := m.reader.words + slot[|m.reader.words|..k])))
    decreases k
  {
    var h := |m.reader.words|;
    var n := m.(reader := m.reader.(words := m.reader.words + slot[h..k]));
    if k == h {
      assert m.reader.words + slot[h..k] == m.reader.words && n == m;
      ReachesItself(m);
    } else {
      var before := m.(reader := m.reader.(words := m.reader.words + slot[h..k - 1]));
      CopyUpTo(m, limit, slot, k - 1);
      assert slot[h..k - 1] + [slot[k - 1]] == slot[h..k];
      assert m.reader.words + slot[h..k - 1] + [slot[k - 1]] == m.reader.words + slot[h..k];
      ReachesStep(before, ReadWord, n);
      ReachesOn(m, before, n);
    }
  }

  /** A poll of a full ring copies the first word of the oldest slot. */
  lemma {:induction false} PollFirstWord(m: Machine, capacity: nat, a: Words) returns (n: Machine)
    requires capacity > 0 && |a| >= 2 && Filled(m, capacity, a, capacity)
    ensures Reaches(m, n) && n == m.(reader := Reading(capacity, 0, [a[0]])) && Shape(n)
  {
    var polled := m.(reader := Reading(capacity, 0, []));
    assert m.skipped + map[] == m.skipped;
    ReachesStep(m, Poll, polled);
    n := m.(reader := Reading(capacity, 0, [a[0]]));
    assert [] + [a[0]] == [a[0]];
    ReachesStep(polled, ReadWord, n);
    ReachesOn(m, polled, n);
  }

  /** A copy begun in one tick and ended in the next is filed as a row of the first word of the one and the
      rest of the other. */
  lemma {:induction false} FinishTorn(m: Machine, capacity: nat, a: Words, b: Words) returns (n: Machine)
    requires |a| == |b| >= 2 && Copying(m, capacity, b) && m.reader.words == [a[0]] && m.rows == []
    ensures Reaches(m, n) && n.rows == [Read(0, [a[0]] + b[1..], 0 > m.writeSeq - m.capacity)]
    ensures n.writeSeq == m.writeSeq && n.capacity == m.capacity && n.published == m.published
  {
    var words := [a[0]] + b[1..];
    CopyUpTo(m, capacity, b, |b|);
    assert b[1..|b|] == b[1..];
    var copied := m.(reader := m.reader.(words := words));
    n := Step(copied, ReadWord);
    assert [] + [Read(0, words, 0 > m.writeSeq - m.capacity)] == [Read(0, words, 0 > m.writeSeq - m.capacity)];
    ReachesStep(copied, ReadWord, n);
    ReachesOn(m, copied, n);
  }

  lemma {:induction false} ReachTorn(capacity: nat, blank: Words, a: Words, b: Words) returns (n: Machine)
    requires capacity > 0 && |blank| == |a| == |b| >= 2
    ensures Reaches(Initial(capacity, blank), n)
    ensures n.writeSeq == n.capacity == capacity && |n.rows| == 1 && n.rows[0].number == 0
    ensures n.rows[0].words == [a[0]] + b[1..]
    ensures forall i :: 0 <= i < |n.published| ==> n.published[i] == a
  {
    var start := Initial(capacity, blank);
    var full := FillRing(capacity, blank, a, capacity);
    var begun := PollFirstWord(full, capacity, a);
    ReachesOn(start, full, begun);
    var done := WriteTick(begun, b);
    var over := Wrote(begun, b, Writing(b, done));
    assert capacity % capacity == 0;
    ReachesOn(start, begun, over);
    n := FinishTorn(over, capacity, a, b);
    ReachesOn(start, over, n);
  }

  /** The bound is exact in a ring of any capacity and any slot of at least two fields: the oldest slot a
      poll may take, `number == writeSeq - capacity`, can be overwritten while it is copied, and the row is
      then a mixture of two ticks that was never published. */
  lemma {:induction false} OldestSlotCanTear(capacity: nat, blank: Words, a: Words, b: Words)
    requires capacity > 0 && |blank| == |a| == |b| >= 2 && a[0] != b[0] && a[1..] != b[1..]
    ensures exists n: Machine ::
              && Reaches(Initial(capacity, blank), n)
              && |n.rows| == 1 && n.rows[0].number == n.writeSeq - n.capacity && n.capacity == capacity
              && n.rows[0].words == [a[0]] + b[1..] && n.rows[0].words !in n.published + [a, b]
  {
    var n := ReachTorn(capacity, blank, a, b);
    var row := [a[0]] + b[1..];
    assert row[0] == a[0] && row[1..] == b[1..];
    assert row != a && row != b;
    assert n.rows[0].words == row;
  }
}
