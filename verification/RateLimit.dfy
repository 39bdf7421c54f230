/** The circuit breaker's fixed-window rate limits, as limits on every sliding interval, and its
    consecutive-loss trip. */
module RateLimit {
  import opened Common

  const SECOND: int := 1_000_000_000
  const MINUTE: int := 60_000_000_000
  const INT_MAX: int := 0x7FFF_FFFF
  const INT_MIN: int := -0x8000_0000

  type Int32 = n: int | -0x8000_0000 <= n < 0x8000_0000 witness 0

  /** Adding one to a 32-bit counter, wrapping round. */
  function Increment(n: Int32): Int32 {
    if n == INT_MAX then INT_MIN else n + 1
  }

  /** A fixed window: when it opened, and how many calls it has seen. */
  datatype Window = Window(start: int, count: Int32)

  /** A window that is over gives way to one opening now. */
  function Opened(length: int, w: Window, now: int): Window {
    if now - w.start >= length then Window(now, 0) else w
  }

  function Counted(w: Window): Window {
    w.(count := Increment(w.count))
  }

  /** The times of the calls let through, of calls at these times. */
  function Passed(length: int, max: Int32, w: Window, times: seq<int>): seq<int>
    decreases |times|
  {
    if times == [] then []
    else
      var o := Opened(length, w, times[0]);
      (if o.count < max then [times[0]] else []) + Passed(length, max, Counted(o), times[1..])
  }

  /** The clock never goes back, starting from `from`. */
  predicate Monotone(from: int, times: seq<int>)
    decreases |times|
  {
    times == [] || (from <= times[0] && Monotone(times[0], times[1..]))
  }

  /** How many of the times fall in the half-open interval of this length. */
  function CountIn(times: seq<int>, a: int, length: int): nat {
    if times == [] then 0 else (if a <= times[0] < a + length then 1 else 0) + CountIn(times[1..], a, length)
  }

  // ---------------------------------------------------------------- no interval passes twice the limit

  /** The counter after `n` calls of one window. */
  function Wrapped(n: nat): Int32
    requires n < 0x1_0000_0000
  {
    if n <= INT_MAX then n else n - 0x1_0000_0000
  }

  /** `seen` calls have passed in the interval from `a`, the last at or before `last`; `n` calls came in the
      present window. */
  ghost predicate Tally(length: int, max: Int32, start: int, n: nat, last: int, a: int, seen: nat) {
    && n <= INT_MAX + 1 && start <= last && 0 <= max
    && (last < a ==> seen == 0)
    && (start < a ==> seen <= Min(n, max))
    && (a <= start < a + length ==> seen <= max + Min(n, max))
    && seen <= 2 * max
  }

  /** Before this call its window has seen fewer than 2^31 others. */
  predicate Room(length: int, start: int, n: nat, now: int) {
    now - start < length ==> n <= INT_MAX
  }

  lemma {:induction false} TallyStep(length: int, max: Int32, start: int, n: nat, last: int, a: int, seen: nat, now: int)
    requires length > 0 && Tally(length, max, start, n, last, a, seen) && last <= now && Room(length, start, n, now)
    ensures var o := Opened(length, Window(start, Wrapped(n)), now);
            var before := if now - start >= length then 0 else n;
            && o == Window(o.start, Wrapped(before)) && Counted(o) == Window(o.start, Wrapped(before + 1))
            && Tally(length, max, o.start, before + 1, now, a,
                     seen + if o.count < max && a <= now < a + length then 1 else 0)
  {
  }

  /** No interval of this length holds more than 2^31 of the times. */
  ghost predicate NoFlood(length: int, times: seq<int>) {
    forall a :: CountIn(times, a, length) <= INT_MAX + 1
  }

  lemma {:induction false} CountInSplit(first: seq<int>, second: seq<int>, a: int, length: int)
    ensures CountIn(first + second, a, length) == CountIn(first, a, length) + CountIn(second, a, length)
    decreases |first|
  {
    if first == [] {
      assert first + second == second;
    } else {
      CountInSplit(first[1..], second, a, length);
      assert (first + second)[1..] == first[1..] + second;
    }
  }

  /** A call that is in the window with the calls counted there leaves its window room, by the bound on the
      window's own interval. */
  lemma {:induction false} RoomLeft(length: int, start: int, n: nat, done: seq<int>, now: int, rest: seq<int>)
    requires NoFlood(length, done + [now] + rest) && n <= CountIn(done, start, length) && start <= now && length > 0
    ensures Room(length, start, n, now)
    ensures var before := if now - start >= length then 0 else n;
            var since := if now - start >= length then now else start;
            before + 1 <= CountIn(done + [now], since, length)
  {
    var since := if now - start >= length then now else start;
    CountInSplit(done + [now], rest, since, length);
    CountInSplit(done, [now], since, length);
    assert [now][1..] == [];
    assert CountIn([now], since, length) == 1;
  }

  /** Every call finds at most 2^31 - 1 others in the window it opens or joins; `n` came before in the
      present one. */
  predicate Calm(length: int, start: int, n: nat, times: seq<int>)
    decreases |times|
  {
    times == [] ||
    (if times[0] - start >= length then Calm(length, times[0], 1, times[1..])
     else n <= INT_MAX && Calm(length, start, n + 1, times[1..]))
  }

  /** Where no interval is flooded no window is. */
  lemma {:induction false} CalmWithoutFlood(length: int, start: int, n: nat, last: int, done: seq<int>, times: seq<int>)
    requires length > 0 && start <= last && Monotone(last, times)
    requires NoFlood(length, done + times) && n <= CountIn(done, start, length)
    ensures Calm(length, start, n, times)
    decreases |times|
  {
    if times != [] {
      var now, rest := times[0], times[1..];
      assert done + times == done + [now] + rest;
      RoomLeft(length, start, n, done, now, rest);
      if now - start >= length {
        CalmWithoutFlood(length, now, 1, now, done + [now], rest);
      } else {
        CalmWithoutFlood(length, start, n + 1, now, done + [now], rest);
      }
    }
  }

  lemma {:induction false} TallyRun(length: int, max: Int32, start: int, n: nat, last: int, a: int, seen: nat,
                                    times: seq<int>)
    requires length > 0 && Tally(length, max, start, n, last, a, seen) && Monotone(last, times)
    requires Calm(length, start, n, times)
    ensures seen + CountIn(Passed(length, max, Window(start, Wrapped(n)), times), a, length) <= 2 * max
    decreases |times|
  {
    if times != [] {
      var now, rest := times[0], times[1..];
      TallyStep(length, max, start, n, last, a, seen, now);
      var o := Opened(length, Window(start, Wrapped(n)), now);
      var before := if now - start >= length then 0 else n;
      var more := if o.count < max && a <= now < a + length then 1 else 0;
      TallyRun(length, max, o.start, before + 1, now, a, seen + more, rest);
      PassedFirst(length, max, Window(start, Wrapped(n)), times, a);
    }
  }

  lemma {:induction false} PassedFirst(length: int, max: Int32, w: Window, times: seq<int>, a: int)
    requires times != []
    ensures var o := Opened(length, w, times[0]);
            CountIn(Passed(length, max, w, times), a, length) ==
            (if o.count < max && a <= times[0] < a + length then 1 else 0)
            + CountIn(Passed(length, max, Counted(o), times[1..]), a, length)
  {
    var o := Opened(length, w, times[0]);
    var rest := Passed(length, max, Counted(o), times[1..]);
    assert o.count < max ==> ([times[0]] + rest)[1..] == rest;
    assert o.count >= max ==> [] + rest == rest;
  }

  /** No half-open interval as long as the window holds more than twice the limit of the calls let through. */
  ghost predicate SlidingBound(length: int, max: Int32, times: seq<int>) {
    forall a :: CountIn(Passed(length, max, Window(0, 0), times), a, length) <= 2 * max
  }

  /** A limiter whose counter starts fresh lets at most twice its limit through in any half-open interval as
      long as its window, wherever the interval lies against the windows, provided only that no window sees
      more than 2^31 calls. */
  lemma {:induction false} AtMostTwice(length: int, max: Int32, times: seq<int>)
    requires length > 0 && max >= 0 && Monotone(0, times) && Calm(length, 0, 0, times)
    ensures SlidingBound(length, max, times)
  {
    forall a
      ensures CountIn(Passed(length, max, Window(0, 0), times), a, length) <= 2 * max
    {
      TallyRun(length, max, 0, 0, 0, a, 0, times);
    }
  }

  /** The call that finds its window's counter wrapped passes even a limit of zero. */
  lemma {:induction false} WrapPassesZero(length: int, start: int, n: nat, times: seq<int>) returns (a: int)
    requires length > 0 && n <= INT_MAX + 1 && !Calm(length, start, n, times)
    ensures CountIn(Passed(length, 0, Window(start, Wrapped(n)), times), a, length) > 0
    decreases |times|
  {
    var now, rest := times[0], times[1..];
    if now - start >= length {
      a := WrapPassesZero(length, now, 1, rest);
    } else if n <= INT_MAX {
      a := WrapPassesZero(length, start, n + 1, rest);
    } else {
      a := now;
    }
    PassedFirst(length, 0, Window(start, Wrapped(n)), times, a);
  }

  /** Main result on one limiter: the sliding bound of twice the limit holds whatever the limit is exactly
      when no window of it sees more than 2^31 calls. */
  lemma {:induction false} SlidingBoundExactly(length: int, times: seq<int>)
    requires length > 0 && Monotone(0, times)
    ensures (forall max: Int32 :: max >= 0 ==> SlidingBound(length, max, times)) <==> Calm(length, 0, 0, times)
  {
    if Calm(length, 0, 0, times) {
      forall max: Int32 | max >= 0
        ensures SlidingBound(length, max, times)
      {
        AtMostTwice(length, max, times);
      }
    } else {
      var a := WrapPassesZero(length, 0, 0, times);
      assert !SlidingBound(length, 0, times);
    }
  }

  // ---------------------------------------------------------------- the two order limits together

  /** The orders that get an OK: those the second limit passes on to the minute limit, which passes them. */
  function Allowed(perSecond: Int32, perMinute: Int32, second: Window, minute: Window, times: seq<int>): seq<int> {
    Passed(MINUTE, perMinute, minute, Passed(SECOND, perSecond, second, times))
  }

  lemma {:induction false} PassedIsMonotone(length: int, max: Int32, w: Window, from: int, times: seq<int>)
    requires Monotone(from, times)
    ensures Monotone(from, Passed(length, max, w, times))
    decreases |times|
  {
    if times != [] {
      var o := Opened(length, w, times[0]);
      var rest := Passed(length, max, Counted(o), times[1..]);
      PassedIsMonotone(length, max, Counted(o), times[0], times[1..]);
      assert ([times[0]] + rest)[1..] == rest && [] + rest == rest;
      EarlierStart(from, times[0], rest);
    }
  }

  lemma {:induction false} EarlierStart(from: int, to: int, times: seq<int>)
    requires from <= to && Monotone(to, times)
    ensures Monotone(from, times)
  {
  }

  lemma {:induction false} PassedIsFewer(length: int, max: Int32, w: Window, times: seq<int>, a: int, span: int)
    ensures CountIn(Passed(length, max, w, times), a, span) <= CountIn(times, a, span)
    decreases |times|
  {
    if times != [] {
      var o := Opened(length, w, times[0]);
      var rest := Passed(length, max, Counted(o), times[1..]);
      PassedIsFewer(length, max, Counted(o), times[1..], a, span);
      assert ([times[0]] + rest)[1..] == rest && [] + rest == rest;
    }
  }

  lemma {:induction false} ShorterCountsFewer(times: seq<int>, a: int, short: int, long: int)
    requires short <= long
    ensures CountIn(times, a, short) <= CountIn(times, a, long)
    decreases |times|
  {
    if times != [] { ShorterCountsFewer(times[1..], a, short, long); }
  }

  /** Main result: for any calls on a clock that never goes back, no half-open second holds more than twice
      the per-second limit of OKs and no half-open minute more than twice the per-minute limit, provided that
      no second's window sees more than 2^31 calls and no minute's more than 2^31 of those passed on. */
  lemma {:induction false} OrderRateHolds(perSecond: Int32, perMinute: Int32, times: seq<int>, a: int)
    requires perSecond >= 0 && perMinute >= 0 && Monotone(0, times)
    requires Calm(SECOND, 0, 0, times) && Calm(MINUTE, 0, 0, Passed(SECOND, perSecond, Window(0, 0), times))
    ensures var ok := Allowed(perSecond, perMinute, Window(0, 0), Window(0, 0), times);
            CountIn(ok, a, SECOND) <= 2 * perSecond && CountIn(ok, a, MINUTE) <= 2 * perMinute
  {
    var through := Passed(SECOND, perSecond, Window(0, 0), times);
    AtMostTwice(SECOND, perSecond, times);
    PassedIsFewer(MINUTE, perMinute, Window(0, 0), through, a, SECOND);
    PassedIsMonotone(SECOND, perSecond, Window(0, 0), 0, times);
    AtMostTwice(MINUTE, perMinute, through);
  }

  /** At most 2^31 calls in any minute are enough for both provisos. */
  lemma {:induction false} CalmUnlessFlooded(perSecond: Int32, times: seq<int>)
    requires Monotone(0, times) && NoFlood(MINUTE, times)
    ensures Calm(SECOND, 0, 0, times) && Calm(MINUTE, 0, 0, Passed(SECOND, perSecond, Window(0, 0), times))
  {
    var through := Passed(SECOND, perSecond, Window(0, 0), times);
    forall b
      ensures CountIn(times, b, SECOND) <= INT_MAX + 1 && CountIn(through, b, MINUTE) <= INT_MAX + 1
    {
      ShorterCountsFewer(times, b, SECOND, MINUTE);
      PassedIsFewer(SECOND, perSecond, Window(0, 0), times, b, MINUTE);
    }
    assert [] + times == times && [] + through == through;
    CalmWithoutFlood(SECOND, 0, 0, 0, [], times);
    PassedIsMonotone(SECOND, perSecond, Window(0, 0), 0, times);
    CalmWithoutFlood(MINUTE, 0, 0, 0, [], through);
  }

  // ---------------------------------------------------------------- the bound is reached

  /** Calls at one instant, none of them late enough to open a window. */
  lemma {:induction false} BurstPasses(length: int, max: Int32, w: Window, t: int, k: nat)
    requires t - w.start < length && 0 <= w.count && w.count + k <= max
    ensures Passed(length, max, w, seq(k, _ => t)) == seq(k, _ => t)
    decreases k
  {
    var times := seq(k, _ => t);
    if k > 0 {
      assert times[1..] == seq(k - 1, _ => t);
      BurstPasses(length, max, Counted(w), t, k - 1);
      assert [t] + seq(k - 1, _ => t) == times;
    }
  }

  lemma {:induction false} PassedSplit(length: int, max: Int32, w: Window, t: int, k: nat, rest: seq<int>)
    requires t - w.start < length && 0 <= w.count && w.count + k <= INT_MAX
    ensures Passed(length, max, w, seq(k, _ => t) + rest) ==
            Passed(length, max, w, seq(k, _ => t)) + Passed(length, max, w.(count := w.count + k), rest)
    decreases k
  {
    var times := seq(k, _ => t);
    if k == 0 {
      assert times + rest == rest;
    } else {
      assert (times + rest)[1..] == seq(k - 1, _ => t) + rest && times[1..] == seq(k - 1, _ => t);
      PassedSplit(length, max, Counted(w), t, k - 1, rest);
    }
  }

  lemma {:induction false} CountBurst(k: nat, t: int, rest: seq<int>, a: int, length: int)
    requires a <= t < a + length
    ensures CountIn(seq(k, _ => t) + rest, a, length) == k + CountIn(rest, a, length)
    decreases k
  {
    var times := seq(k, _ => t) + rest;
    if k == 0 {
      assert times == rest;
    } else {
      assert times[1..] == seq(k - 1, _ => t) + rest;
      CountBurst(k - 1, t, rest, a, length);
    }
  }

  /** Twice the limit does get through: a burst in the last instant of one window and one in the first of
      the next, all within two instants of each other. */
  lemma {:induction false} TwiceIsReached(length: int, max: Int32)
    requires length > 1 && max > 0
    ensures var times := seq(max, _ => length - 1) + seq(max, _ => length);
            Passed(length, max, Window(0, 0), times) == times && CountIn(times, length - 1, 2) == 2 * max
  {
    var first, second := seq(max, _ => length - 1), seq(max, _ => length);
    PassedSplit(length, max, Window(0, 0), length - 1, max, second);
    BurstPasses(length, max, Window(0, 0), length - 1, max);
    assert second[1..] == seq(max - 1, _ => length);
    BurstPasses(length, max, Window(length, 1), length, max - 1);
    assert [length] + seq(max - 1, _ => length) == second;
    assert Passed(length, max, Window(0, max), second) == second;
    CountBurst(max, length - 1, second, length - 1, 2);
    assert second + [] == second;
    CountBurst(max, length, [], length - 1, 2);
  }

  // ---------------------------------------------------------------- nothing is refused below the limit

  /** The window after these calls. */
  function After(length: int, w: Window, times: seq<int>): Window
    decreases |times|
  {
    if times == [] then w
    else Counted(Opened(length, After(length, w, times[..|times| - 1]), times[|times| - 1]))
  }

  lemma {:induction false} CountInAppend(times: seq<int>, t: int, a: int, length: int)
    ensures CountIn(times + [t], a, length) == CountIn(times, a, length) + if a <= t < a + length then 1 else 0
    decreases |times|
  {
    if times == [] {
      assert times + [t] == [t];
    } else {
      assert (times + [t])[1..] == times[1..] + [t];
      CountInAppend(times[1..], t, a, length);
    }
  }

  ghost predicate Ordered(times: seq<int>) {
    forall i, j :: 0 <= i < j < |times| ==> times[i] <= times[j]
  }

  /** The counter is never more than the number of calls since the window opened, inclusive. */
  lemma {:induction false} CounterIsSinceStart(length: int, times: seq<int>)
    requires length > 0 && Ordered(times) && forall i :: 0 <= i < |times| ==> times[i] >= 0
    ensures var w := After(length, Window(0, 0), times);
            && w.count <= CountIn(times, w.start, length)
            && (times == [] ==> w.start == 0) && (times != [] ==> w.start <= times[|times| - 1] < w.start + length)
    decreases |times|
  {
    if times != [] {
      var n := |times| - 1;
      CounterIsSinceStart(length, times[..n]);
      assert times == times[..n] + [times[n]];
      var o := Opened(length, After(length, Window(0, 0), times[..n]), times[n]);
      CountInAppend(times[..n], times[n], o.start, length);
    }
  }

  lemma {:induction false} LaterStartCountsFewer(times: seq<int>, a: int, b: int, t: int, length: int)
    requires a <= b <= t < b + length && forall i :: 0 <= i < |times| ==> times[i] <= t
    ensures CountIn(times, b, length) <= CountIn(times, a, t - a + 1)
    decreases |times|
  {
    if times != [] {
      LaterStartCountsFewer(times[1..], a, b, t, length);
    }
  }

  /** A call is refused only if the limit's worth of calls came in the window's length up to it. */
  lemma {:induction false} RefusedOnlyAtLimit(length: int, max: Int32, times: seq<int>, now: int)
    requires length > 0 && Ordered(times + [now]) && forall i :: 0 <= i < |times| ==> times[i] >= 0
    requires max > 0
    requires Opened(length, After(length, Window(0, 0), times), now).count >= max
    ensures CountIn(times, now - length + 1, length) >= max
  {
    assert forall i :: 0 <= i < |times| ==> (times + [now])[i] == times[i];
    CounterIsSinceStart(length, times);
    var w := After(length, Window(0, 0), times);
    forall i | 0 <= i < |times|
      ensures times[i] <= now
    {
      assert (times + [now])[i] == times[i] && (times + [now])[|times|] == now;
    }
    LaterStartCountsFewer(times, now - length + 1, w.start, now, length);
  }

  // ---------------------------------------------------------------- where the counter wraps

  /** How many of the first `m` calls of one window the wrapped counter lets through. */
  function LetThrough(max: Int32, m: nat): nat
    requires 0 <= max && m <= 0x1_0000_0000
  {
    if m <= max then m else if m <= INT_MAX + 1 then max else max + m - INT_MAX - 1
  }

  ghost predicate InWindow(length: int, start: int, times: seq<int>) {
    forall i :: 0 <= i < |times| ==> times[i] - start < length
  }

  lemma {:induction false} WindowCount(length: int, max: Int32, start: int, n: nat, times: seq<int>)
    requires InWindow(length, start, times) && 0 <= max && n < 0x1_0000_0000 && n + |times| <= 0x1_0000_0000
    ensures |Passed(length, max, Window(start, Wrapped(n)), times)| == LetThrough(max, n + |times|) - LetThrough(max, n)
    decreases |times|
  {
    if times != [] {
      assert times[0] - start < length;
      if n + 1 < 0x1_0000_0000 {
        WindowCount(length, max, start, n + 1, times[1..]);
      } else {
        assert times[1..] == [];
      }
    }
  }

  lemma {:induction false} MoreCallsPassMore(length: int, max: Int32, w: Window, first: seq<int>, second: seq<int>)
    ensures |Passed(length, max, w, first)| <= |Passed(length, max, w, first + second)|
    decreases |first|
  {
    if first != [] {
      assert (first + second)[1..] == first[1..] + second;
      MoreCallsPassMore(length, max, Counted(Opened(length, w, first[0])), first[1..], second);
    }
  }

  /** The exact reach of the limit, for any calls that fall in one window: the window keeps to its limit if
      and only if it sees at most 2^31 calls, and to the sliding bound of twice the limit if and only if it
      sees at most that many and the limit again. */
  lemma {:induction false} LimitHoldsUntilWrap(length: int, max: Int32, start: int, times: seq<int>)
    requires 0 <= max && InWindow(length, start, times)
    ensures |Passed(length, max, Window(start, 0), times)| <= max <==> |times| <= INT_MAX + 1
    ensures |Passed(length, max, Window(start, 0), times)| <= 2 * max <==> |times| <= INT_MAX + 1 + max
  {
    var n: nat := 0x1_0000_0000;
    if |times| <= n {
      WindowCount(length, max, start, 0, times);
    } else {
      WindowCount(length, max, start, 0, times[..n]);
      MoreCallsPassMore(length, max, Window(start, 0), times[..n], times[n..]);
      assert times[..n] + times[n..] == times;
    }
  }

  ghost predicate Within(times: seq<int>, a: int, length: int) {
    forall i :: 0 <= i < |times| ==> a <= times[i] < a + length
  }

  lemma {:induction false} AllIn(times: seq<int>, a: int, length: int)
    requires Within(times, a, length)
    ensures CountIn(times, a, length) == |times|
    decreases |times|
  {
    if times != [] { AllIn(times[1..], a, length); }
  }

  lemma {:induction false} PassedWithin(length: int, max: Int32, w: Window, times: seq<int>, a: int, span: int)
    requires Within(times, a, span)
    ensures Within(Passed(length, max, w, times), a, span)
    decreases |times|
  {
    if times != [] {
      var o := Opened(length, w, times[0]);
      PassedWithin(length, max, Counted(o), times[1..], a, span);
    }
  }

  /** So the sliding bound needs its proviso: a burst of more than 2^31 calls and the limit again, all within
      the first window, gets more than twice the limit through in that one interval. */
  lemma {:induction false} FloodBreaksBound(length: int, max: Int32, times: seq<int>)
    requires length > 0 && 0 <= max && Within(times, 0, length)
    requires |times| > INT_MAX + 1 + max
    ensures CountIn(Passed(length, max, Window(0, 0), times), 0, length) > 2 * max && !NoFlood(length, times)
  {
    LimitHoldsUntilWrap(length, max, 0, times);
    PassedWithin(length, max, Window(0, 0), times, 0, length);
    AllIn(Passed(length, max, Window(0, 0), times), 0, length);
    AllIn(times, 0, length);
  }

  // ---------------------------------------------------------------- the breaker as an object

  datatype RateVerdict = Ok | RateLimitSecond | RateLimitMinute | MessageLimit

  datatype Breaker = Breaker(perSecond: Int32, perMinute: Int32, messages: Int32, lossRun: Int32, lossUsd: real)

  class RateWindow {
    var start: int
    var count: Int32

    ghost function View(): Window
      reads this
    {
      Window(start, count)
    }

    constructor ()
      ensures View() == Window(0, 0)
    {
      start, count := 0, 0;
    }

    /** Counts a call at `now` and says whether it is within the limit. */
    method Admit(length: int, max: Int32, now: int) returns (ok: bool)
      modifies this
      ensures View() == Counted(Opened(length, old(View()), now))
      ensures ok <==> Opened(length, old(View()), now).count < max
    {
      if now - start >= length {
        start, count := now, 0;
      }
      var before := count;
      count := Increment(count);
      ok := before < max;
    }
  }

  /** How many losses in a row these results end with. */
  function Trailing(results: seq<real>, lossUsd: real): nat {
    if results == [] || results[|results| - 1] > lossUsd then 0
    else 1 + Trailing(results[..|results| - 1], lossUsd)
  }

  ghost predicate LossRun(results: seq<real>, lossUsd: real, from: nat, n: nat) {
    from + n <= |results| && forall i :: from <= i < from + n ==> results[i] <= lossUsd
  }

  /** Somewhere among the results there are `n` losses in a row. */
  ghost predicate HadRun(results: seq<real>, lossUsd: real, n: nat) {
    exists from: nat :: LossRun(results, lossUsd, from, n)
  }

  /** The trailing count is the length of the longest run of losses that ends with the last result. */
  lemma {:induction false} TrailingIsRun(results: seq<real>, lossUsd: real)
    ensures var n := Trailing(results, lossUsd);
            && n <= |results| && LossRun(results, lossUsd, |results| - n, n)
            && forall from: nat, m: nat :: LossRun(results, lossUsd, from, m) && from + m == |results| ==> m <= n
    decreases |results|
  {
    if results != [] && results[|results| - 1] <= lossUsd {
      var shorter := results[..|results| - 1];
      TrailingIsRun(shorter, lossUsd);
      forall from: nat, m: nat | LossRun(results, lossUsd, from, m) && from + m == |results|
        ensures m <= Trailing(results, lossUsd)
      {
        if m > 0 { assert LossRun(shorter, lossUsd, from, m - 1); }
      }
    }
  }

  /** A limit of zero or less trips on the first loss. */
  function TripRun(cfg: Breaker): nat {
    if cfg.lossRun < 1 then 1 else cfg.lossRun
  }

  class CircuitBreaker {
    const cfg: Breaker
    const second: RateWindow
    const minute: RateWindow
    const message: RateWindow
    var losses: Int32
    var killed: bool
    ghost var results: seq<real>

    ghost predicate Valid()
      reads this
    {
      && second != minute && second != message && minute != message
      && (Trailing(results, cfg.lossUsd) <= INT_MAX ==> losses == Trailing(results, cfg.lossUsd))
      && (killed <==> HadRun(results, cfg.lossUsd, TripRun(cfg)))
    }

    constructor (cfg: Breaker)
      ensures Valid() && this.cfg == cfg && results == [] && !killed
      ensures second.View() == minute.View() == message.View() == Window(0, 0)
      ensures fresh(second) && fresh(minute) && fresh(message)
    {
      this.cfg := cfg;
      second := new RateWindow();
      minute := new RateWindow();
      message := new RateWindow();
      losses, killed, results := 0, false, [];
    }

    method CheckOrderRate(now: int) returns (verdict: RateVerdict)
      requires Valid()
      modifies second, minute
      ensures var s := Opened(SECOND, old(second.View()), now);
              var m := Opened(MINUTE, old(minute.View()), now);
              && second.View() == Counted(s)
              && minute.View() == (if s.count < cfg.perSecond then Counted(m) else old(minute.View()))
              && verdict == if s.count >= cfg.perSecond then RateLimitSecond
                            else if m.count >= cfg.perMinute then RateLimitMinute else Ok
    {
      var ok := second.Admit(SECOND, cfg.perSecond, now);
      if !ok { return RateLimitSecond; }
      ok := minute.Admit(MINUTE, cfg.perMinute, now);
      return if ok then Ok else RateLimitMinute;
    }

    method CheckMessageRate(now: int) returns (verdict: RateVerdict)
      requires Valid()
      modifies message
      ensures message.View() == Counted(Opened(SECOND, old(message.View()), now))
      ensures verdict == if Opened(SECOND, old(message.View()), now).count >= cfg.messages then MessageLimit else Ok
    {
      var ok := message.Admit(SECOND, cfg.messages, now);
      return if ok then Ok else MessageLimit;
    }

    /** The times that got an OK, of calls at these times: with OrderRateHolds, the bound on every interval. */
    method CheckAll(times: seq<int>) returns (ok: seq<int>)
      requires Valid()
      modifies second, minute
      ensures ok == Allowed(cfg.perSecond, cfg.perMinute, old(second.View()), old(minute.View()), times)
    {
      ok := [];
      for i := 0 to |times|
        invariant ok + Allowed(cfg.perSecond, cfg.perMinute, second.View(), minute.View(), times[i..])
                  == Allowed(cfg.perSecond, cfg.perMinute, old(second.View()), old(minute.View()), times)
      {
        ghost var s, m := second.View(), minute.View();
        AllowedStep(cfg, s, m, times[i..]);
        assert times[i..][1..] == times[i + 1..];
        var verdict := CheckOrderRate(times[i]);
        if verdict == Ok { ok := ok + [times[i]]; }
      }
      assert times[|times|..] == [] && ok + [] == ok;
    }

    /** The switch trips at the first run of that many losses in a row, and never for less. */
    method RecordLegResult(pnl: real) returns (tripped: bool)
      requires Valid() && Trailing(results, cfg.lossUsd) < INT_MAX
      modifies this
      ensures Valid() && results == old(results) + [pnl]
      ensures tripped <==> Trailing(results, cfg.lossUsd) >= TripRun(cfg)
    {
      ghost var before := results;
      results := results + [pnl];
      TrailingAppend(before, pnl, cfg.lossUsd);
      RunsOfAppend(before, pnl, cfg.lossUsd, TripRun(cfg));
      tripped := false;
      if pnl <= cfg.lossUsd {
        losses := Increment(losses);
        if losses >= cfg.lossRun {
          killed := true;
          tripped := true;
        }
      } else {
        losses := 0;
      }
    }
  }

  lemma {:induction false} AllowedStep(cfg: Breaker, s: Window, m: Window, times: seq<int>)
    requires times != []
    ensures var s' := Opened(SECOND, s, times[0]);
            var m' := Opened(MINUTE, m, times[0]);
            Allowed(cfg.perSecond, cfg.perMinute, s, m, times) ==
            (if s'.count < cfg.perSecond && m'.count < cfg.perMinute then [times[0]] else []) +
            Allowed(cfg.perSecond, cfg.perMinute, Counted(s'), if s'.count < cfg.perSecond then Counted(m') else m,
                    times[1..])
  {
    var s' := Opened(SECOND, s, times[0]);
    var rest := Passed(SECOND, cfg.perSecond, Counted(s'), times[1..]);
    assert ([times[0]] + rest)[1..] == rest && [] + rest == rest;
  }

  lemma {:induction false} TrailingAppend(results: seq<real>, pnl: real, lossUsd: real)
    ensures Trailing(results + [pnl], lossUsd) == if pnl > lossUsd then 0 else Trailing(results, lossUsd) + 1
  {
    assert (results + [pnl])[..|results|] == results;
  }

  lemma {:induction false} RunsOfAppend(results: seq<real>, pnl: real, lossUsd: real, n: nat)
    requires n > 0
    ensures var longer := results + [pnl];
            HadRun(longer, lossUsd, n) <==> HadRun(results, lossUsd, n) || Trailing(longer, lossUsd) >= n
  {
    var longer := results + [pnl];
    TrailingIsRun(longer, lossUsd);
    if HadRun(results, lossUsd, n) {
      var from: nat :| LossRun(results, lossUsd, from, n);
      assert LossRun(longer, lossUsd, from, n);
    }
    if Trailing(longer, lossUsd) >= n {
      assert LossRun(longer, lossUsd, |longer| - n, n);
    }
    if HadRun(longer, lossUsd, n) {
      var from: nat :| LossRun(longer, lossUsd, from, n);
      if from + n <= |results| {
        assert forall i :: from <= i < from + n ==> longer[i] == results[i];
        assert LossRun(results, lossUsd, from, n);
      } else {
        assert from + n == |longer|;
      }
    }
  }
}
