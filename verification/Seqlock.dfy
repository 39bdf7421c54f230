/** The signal files: one publisher guarding its fields with a sequence number that is odd while it
    writes, and readers in another process that retry until they see the same even number twice. */
module Seqlock {

  datatype Field = Real(value: real) | Int(n: int)

  /** The fields in file order; the timestamp is the last. */
  type Signal = seq<Field>

  const FIELDS: nat := 5
  const MAX_RETRIES: nat := 16

  function Zeros(): Signal {
    [Real(0.0), Real(0.0), Real(0.0), Real(0.0), Int(0)]
  }

  function Stamp(s: Signal): int {
    if |s| == FIELDS && s[FIELDS - 1].Int? then s[FIELDS - 1].n else 0
  }

  function IsStale(s: Signal, now: int, staleNs: int): bool {
    Stamp(s) == 0 || now - Stamp(s) > staleNs
  }

  // ---------------------------------------------------------------- the publisher, one store at a time

  datatype Writer =
    | Idle
    | Loaded(number: nat, value: Signal)
    | Writing(number: nat, value: Signal, done: set<nat>)

  /** The file and its publisher; `history` holds the zeros the file began with and every publish that has
      completed. */
  datatype Memory = Memory(number: nat, words: Signal, writer: Writer, history: seq<Signal>)

  datatype Event =
    | BeginPublish(value: Signal)
    | MarkOdd
    | Scribble(k: nat, field: Field)
    | WriteField(k: nat)
    | MarkEven

  function Step(m: Memory, e: Event): Memory {
    match e
    case BeginPublish(value) =>
      if m.writer.Idle? && |value| == FIELDS then m.(writer := Loaded(m.number, value)) else m
    case MarkOdd =>
      if m.writer.Loaded? then m.(number := m.writer.number + 1, writer := Writing(m.writer.number, m.writer.value, {}))
      else m
    case Scribble(k, field) =>
      if m.writer.Writing? && k < |m.words| then
        m.(words := m.words[k := field], writer := m.writer.(done := m.writer.done - {k}))
      else m
    case WriteField(k) =>
      if m.writer.Writing? && k < |m.words| && k < |m.writer.value| then
        m.(words := m.words[k := m.writer.value[k]], writer := m.writer.(done := m.writer.done + {k}))
      else m
    case MarkEven =>
      if m.writer.Writing? && m.writer.done == {0, 1, 2, 3, 4} then
        m.(number := m.writer.number + 2, writer := Idle, history := m.history + [m.writer.value])
      else m
  }

  function Run(m: Memory, events: seq<Event>): Memory
    decreases |events|
  {
    if events == [] then m else Run(Step(m, events[0]), events[1..])
  }

  function Initial(): Memory {
    Memory(0, Zeros(), Idle, [Zeros()])
  }

  /** The last publish to complete, or the zeros. */
  function Latest(m: Memory): Signal {
    if m.history == [] then Zeros() else m.history[|m.history| - 1]
  }

  ghost predicate Inv(m: Memory) {
    && |m.words| == FIELDS && m.history != [] && |Latest(m)| == FIELDS
    && match m.writer
       case Idle => m.number == 2 * (|m.history| - 1) && m.words == Latest(m)
       case Loaded(n, v) => m.number == n == 2 * (|m.history| - 1) && m.words == Latest(m) && |v| == FIELDS
       case Writing(n, v, done) =>
         && n == 2 * (|m.history| - 1) && m.number == n + 1 && |v| == FIELDS
         && forall k :: 0 <= k < FIELDS && k in done ==> m.words[k] == v[k]
  }

  /** Every step keeps the invariant, never lowers the number and never rewrites history. */
  lemma {:induction false} StepKeepsInv(m: Memory, e: Event)
    requires Inv(m)
    ensures Inv(Step(m, e)) && m.number <= Step(m, e).number && m.history <= Step(m, e).history
  {
    if e.MarkEven? && m.writer.Writing? && m.writer.done == {0, 1, 2, 3, 4} {
      assert forall k :: 0 <= k < FIELDS ==> k in m.writer.done;
      assert m.words == m.writer.value;
    }
  }

  lemma {:induction false} RunKeepsInv(m: Memory, events: seq<Event>)
    requires Inv(m)
    ensures Inv(Run(m, events)) && m.number <= Run(m, events).number && m.history <= Run(m, events).history
    decreases |events|
  {
    if events != [] {
      StepKeepsInv(m, events[0]);
      RunKeepsInv(Step(m, events[0]), events[1..]);
    }
  }

  // ---------------------------------------------------------------- what a reader's loads see

  /** The file at the moment of each load: between two loads the publisher may take any steps at all. */
  ghost predicate World(world: seq<Memory>) {
    && (world != [] ==> Follows(Initial(), world[0]))
    && forall i, j | j == i + 1 :: 0 <= i && j < |world| ==> Follows(world[i], world[j])
  }

  ghost predicate Follows(a: Memory, b: Memory) {
    exists events: seq<Event> :: b == Run(a, events)
  }

  lemma {:induction false} WorldInv(world: seq<Memory>, i: nat)
    requires World(world) && i < |world|
    ensures Inv(world[i])
  {
    if i == 0 {
      assert Follows(Initial(), world[0]);
      var before: seq<Event> :| world[0] == Run(Initial(), before);
      RunKeepsInv(Initial(), before);
    } else {
      WorldInv(world, i - 1);
      assert Follows(world[i - 1], world[i]);
      var events: seq<Event> :| world[i] == Run(world[i - 1], events);
      RunKeepsInv(world[i - 1], events);
    }
  }

  lemma {:induction false} WorldMoves(world: seq<Memory>, i: nat, j: nat)
    requires World(world) && i <= j < |world|
    ensures world[i].number <= world[j].number && world[i].history <= world[j].history
    decreases j - i
  {
    if i < j {
      WorldMoves(world, i, j - 1);
      WorldInv(world, j - 1);
      assert Follows(world[j - 1], world[j]);
      var events: seq<Event> :| world[j] == Run(world[j - 1], events);
      RunKeepsInv(world[j - 1], events);
    }
  }

  /** Two loads that find the same even number enclose only loads of the latest publish. */
  lemma {:induction false} SameNumberSameFields(world: seq<Memory>, i: nat, k: nat, j: nat)
    requires World(world) && i <= k <= j < |world|
    requires world[i].number == world[j].number && world[i].number % 2 == 0
    ensures world[k].words == Latest(world[j]) && Latest(world[i]) == Latest(world[j])
  {
    WorldMoves(world, i, k);
    WorldMoves(world, k, j);
    WorldInv(world, i);
    WorldInv(world, k);
    WorldInv(world, j);
  }

  // ---------------------------------------------------------------- the reader

  /** How many loads a read can make at most. */
  const MAX_LOADS: nat := 112

  /** The retry loop of both readers. The regime reader also tests the second number for oddness. */
  class SignalReader {
    const checksParity: bool

    constructor (parity: bool)
      ensures checksParity == parity
    {
      checksParity := parity;
    }

    /** One attempt from load `t`: the number, the five fields, the number again. */
    method Attempt(world: seq<Memory>, t: nat) returns (value: Signal, accepted: bool, next: nat)
      requires World(world) && t + FIELDS + 2 <= |world|
      ensures t < next <= t + FIELDS + 2
      ensures accepted ==> value == Latest(world[next - 1]) == Latest(world[t])
      ensures accepted <==> world[t].number % 2 == 0 && world[t + FIELDS + 1].number == world[t].number
    {
      var number1 := world[t].number;
      if number1 % 2 == 1 {
        return Zeros(), false, t + 1;
      }
      value := [];
      for k := 0 to FIELDS
        invariant |value| == k
        invariant forall j :: t < j <= t + k ==> |world[j].words| == FIELDS && value[j - t - 1] == world[j].words[j - t - 1]
      {
        WorldInv(world, t + 1 + k);
        value := value + [world[t + 1 + k].words[k]];
      }
      var number2 := world[t + FIELDS + 1].number;
      accepted := number1 == number2 && (!checksParity || number2 % 2 == 0);
      next := t + FIELDS + 2;
      if accepted {
        WorldInv(world, t + FIELDS + 1);
        SameNumberSameFields(world, t, t, t + FIELDS + 1);
        forall i | 0 <= i < FIELDS
          ensures value[i] == Latest(world[t + FIELDS + 1])[i]
        {
          var j := t + 1 + i;
          SameNumberSameFields(world, t, j, t + FIELDS + 1);
          assert value[j - t - 1] == world[j].words[j - t - 1];
        }
      }
    }

    /** Main result: whatever the publisher does meanwhile, an accepted read returns the fields of exactly
        one completed publish or the initial zeros, and that one is the latest when the read ends; a read
        that runs out of attempts returns zeros; and a read no publish disturbs is accepted. */
    method Read(world: seq<Memory>) returns (value: Signal, accepted: bool, loads: nat)
      requires World(world) && |world| >= MAX_LOADS
      ensures 0 < loads <= MAX_LOADS
      ensures accepted ==> value == Latest(world[loads - 1]) && value in world[loads - 1].history
      ensures !accepted ==> value == Zeros() && forall now, staleNs :: IsStale(value, now, staleNs)
      ensures world[0].number % 2 == 0 && world[FIELDS + 1].number == world[0].number ==> accepted
    {
      loads := 0;
      for i := 0 to MAX_RETRIES
        invariant loads <= 7 * i && (i > 0 ==> loads > 0)
        invariant i > 0 ==> !(world[0].number % 2 == 0 && world[FIELDS + 1].number == world[0].number)
        invariant i == 0 ==> loads == 0
      {
        value, accepted, loads := Attempt(world, loads);
        if accepted {
          WorldInv(world, loads - 1);
          return;
        }
      }
      return Zeros(), false, loads;
    }
  }

  /** Successive accepted reads never go back to an older publish. */
  lemma {:induction false} ReadsNeverGoBack(world: seq<Memory>, i: nat, j: nat)
    requires World(world) && i <= j < |world|
    ensures |world[i].history| <= |world[j].history| && Latest(world[i]) in world[j].history
  {
    WorldInv(world, i);
    WorldMoves(world, i, j);
    assert world[j].history[|world[i].history| - 1] == Latest(world[i]);
  }

  // ---------------------------------------------------------------- the publisher as an object

  /** The mapped file and the steps its publisher takes; `was` is the file as the stepped model sees it. */
  class SignalPublisher {
    var number: nat
    const words: array<Field>
    ghost var was: Memory

    ghost predicate Mirrors()
      reads this, words
    {
      words.Length == FIELDS && Inv(was) && was.number == number && was.words == words[..]
    }

    ghost predicate Valid()
      reads this, words
    {
      Mirrors() && was.writer.Idle? && Follows(Initial(), was)
    }

    constructor ()
      ensures Valid() && was == Initial() && fresh(words)
    {
      number := 0;
      words := new Field[FIELDS](k => if k == FIELDS - 1 then Int(0) else Real(0.0));
      was := Initial();
      new;
      assert words[..] == Zeros();
      assert Run(Initial(), []) == was;
    }

    /** Packs the five fields one after the other. */
    method PackFields(value: Signal, loaded: nat)
      requires Mirrors() && |value| == FIELDS && was.writer == Writing(loaded, value, {})
      modifies this`was, words
      ensures Mirrors() && Follows(old(was), was) && was.history == old(was).history
      ensures was.writer == Writing(loaded, value, {0, 1, 2, 3, 4})
    {
      FollowsItself(was);
      for k := 0 to FIELDS
        invariant Mirrors() && Follows(old(was), was) && was.history == old(was).history
        invariant was.writer == Writing(loaded, value, Upto(k))
      {
        words[k] := value[k];
        StepKeepsInv(was, WriteField(k));
        FollowsStep(old(was), was, WriteField(k));
        was := Step(was, WriteField(k));
      }
      assert Upto(5) == {0, 1, 2, 3, 4};
    }

    /** Odd number, the five fields, next even number: a run of the stepped model's own steps, ending
        with this value as the latest. */
    method Publish(value: Signal)
      requires Valid() && |value| == FIELDS
      modifies this, words
      ensures Valid() && Follows(old(was), was)
      ensures was.history == old(was).history + [value] && words[..] == value && number == old(number) + 2
    {
      var loaded := number;
      ghost var before := was;
      FollowsItself(was);
      StepKeepsInv(was, BeginPublish(value));
      FollowsStep(before, was, BeginPublish(value));
      was := Step(was, BeginPublish(value));
      StepKeepsInv(was, MarkOdd);
      FollowsStep(before, was, MarkOdd);
      number := loaded + 1;
      was := Step(was, MarkOdd);
      ghost var marked := was;
      PackFields(value, loaded);
      FollowsTransitive(before, marked, was);
      StepKeepsInv(was, MarkEven);
      FollowsStep(before, was, MarkEven);
      number := loaded + 2;
      was := Step(was, MarkEven);
      FollowsTransitive(Initial(), before, was);
    }
  }

  /** The first `n` fields. */
  ghost function Upto(n: nat): set<nat> {
    if n == 0 then {} else Upto(n - 1) + {n - 1}
  }

  lemma {:induction false} FollowsItself(m: Memory)
    ensures Follows(m, m)
  {
    assert Run(m, []) == m;
  }

  lemma {:induction false} FollowsStep(a: Memory, b: Memory, e: Event)
    requires Follows(a, b)
    ensures Follows(a, Step(b, e))
  {
    assert [e][1..] == [];
    assert Run(Step(b, e), []) == Step(b, e);
    assert Run(b, [e]) == Step(b, e);
    FollowsTransitive(a, b, Step(b, e));
  }

  lemma {:induction false} RunSplit(m: Memory, first: seq<Event>, second: seq<Event>)
    ensures Run(m, first + second) == Run(Run(m, first), second)
    decreases |first|
  {
    if first == [] {
      assert first + second == second;
    } else {
      RunSplit(Step(m, first[0]), first[1..], second);
      assert (first + second)[1..] == first[1..] + second;
    }
  }

  lemma {:induction false} FollowsTransitive(a: Memory, b: Memory, c: Memory)
    requires Follows(a, b) && Follows(b, c)
    ensures Follows(a, c)
  {
    var first: seq<Event> :| b == Run(a, first);
    var second: seq<Event> :| c == Run(b, second);
    RunSplit(a, first, second);
  }

  // ---------------------------------------------------------------- the gates behind the reader

  datatype Gate = Long | Short | MarketMaking

  /** Whether a fresh signal lets the strategy act. */
  predicate Passes(s: Signal, gate: Gate, minBps: real, riskMax: real)
    requires |s| == FIELDS
  {
    var signal, risk := if s[0].Real? then s[0].value else 0.0, if s[1].Real? then s[1].value else 0.0;
    match gate
    case Long => signal >= minBps && risk < riskMax
    case Short => signal <= -minBps && risk < riskMax
    case MarketMaking => risk < riskMax
  }

  /** What a packed signal means: its first field is the expected move, its second the risk, its last the time it
      was made. More risk never opens a gate, a smaller move never opens its own, and the two directions are
      never open together where some move is asked for. */
  lemma {:induction false} GateMeans(move: real, risk: real, third: Field, fourth: Field, stamp: int, gate: Gate,
                                     minBps: real, riskMax: real, now: int, staleNs: int)
    ensures var s := [Field.Real(move), Field.Real(risk), third, fourth, Field.Int(stamp)];
            && (IsStale(s, now, staleNs) <==> stamp == 0 || stamp + staleNs < now)
            && (Passes(s, gate, minBps, riskMax) <==>
                  risk < riskMax && (gate == Long ==> move >= minBps) && (gate == Short ==> -move >= minBps))
            && (minBps > 0.0 ==> !(Passes(s, Long, minBps, riskMax) && Passes(s, Short, minBps, riskMax)))
  {
  }

  /** The alpha reader: open for every trade until a fresh signal says otherwise. */
  class AlphaSignalReader {
    const reader: SignalReader
    const minBps: real
    const riskMax: real
    const staleNs: int
    const warnThrottleNs: int
    var mapped: bool
    var lastWarn: int
    var warnings: nat

    constructor (minBps: real, riskMax: real, staleNs: int, warnThrottleNs: int)
      ensures !mapped && lastWarn == 0 && warnings == 0 && this.minBps == minBps && this.riskMax == riskMax
      ensures this.staleNs == staleNs && this.warnThrottleNs == warnThrottleNs
    {
      this.minBps, this.riskMax, this.staleNs, this.warnThrottleNs := minBps, riskMax, staleNs, warnThrottleNs;
      mapped, lastWarn, warnings := false, 0, 0;
      reader := new SignalReader(false);
    }

    method WarnUnavailable(now: int)
      modifies this
      ensures mapped == old(mapped)
      ensures var due := now - old(lastWarn) >= warnThrottleNs;
              lastWarn == (if due then now else old(lastWarn)) && warnings == old(warnings) + if due then 1 else 0
    {
      if now - lastWarn >= warnThrottleNs {
        lastWarn, warnings := now, warnings + 1;
      }
    }

    /** Refuses only on the word of the latest completed publish, fresh by the clock: no mixture of two
        publishes and no unpublished file ever blocks a trade. */
    method Allows(gate: Gate, world: seq<Memory>, now: int) returns (allowed: bool, loads: nat)
      requires World(world) && |world| >= MAX_LOADS
      modifies this
      ensures mapped == old(mapped) && loads <= MAX_LOADS
      ensures mapped || gate.MarketMaking? ==> lastWarn == old(lastWarn) && warnings == old(warnings)
      ensures !mapped ==> allowed
      ensures !allowed ==> 0 < loads && !IsStale(Latest(world[loads - 1]), now, staleNs)
                           && |Latest(world[loads - 1])| == FIELDS
                           && !Passes(Latest(world[loads - 1]), gate, minBps, riskMax)
      ensures mapped && world[0].number % 2 == 0 && world[FIELDS + 1].number == world[0].number ==>
                0 < loads && |Latest(world[loads - 1])| == FIELDS &&
                (allowed <==> IsStale(Latest(world[loads - 1]), now, staleNs)
                              || Passes(Latest(world[loads - 1]), gate, minBps, riskMax))
    {
      if !mapped {
        if !gate.MarketMaking? { WarnUnavailable(now); }
        return true, 0;
      }
      var s, accepted;
      s, accepted, loads := reader.Read(world);
      WorldInv(world, loads - 1);
      if IsStale(s, now, staleNs) { return true, loads; }
      return Passes(s, gate, minBps, riskMax), loads;
    }
  }
}
