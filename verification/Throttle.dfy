/** The throttle filtra.  Times are steady-clock nanoseconds; the delay is in milliseconds and is a
    real number, as in the source, while elapsed time is truncated to whole milliseconds. */
module Throttle {
  import opened Arithmetic

  const NS_PER_MS: int := 1_000_000

  /** 1000 / rate; a rate of 0 gives an infinite delay. */
  datatype Delay = Ms(value: real) | Infinite

  function DelayOf(rate: real): Delay {
    if rate == 0.0 then Infinite else Ms(1000.0 / rate)
  }

  /** duration_cast to milliseconds truncates toward zero. */
  function Elapsed(now: int, last: int): int {
    if now >= last then (now - last) / NS_PER_MS else -((last - now) / NS_PER_MS)
  }

  predicate Due(delay: Delay, last: int, now: int) {
    delay.Ms? && Elapsed(now, last) as real >= delay.value
  }

  class ThrottleFilter {
    const delay: Delay
    var lastMsgTime: int

    constructor (rate: real)
      ensures delay == DelayOf(rate) && lastMsgTime == 0
      ensures if rate == 0.0 then delay == Infinite else delay == Ms(1000.0 / rate)
    {
      delay := DelayOf(rate);
      lastMsgTime := 0;
    }

    method ProcessMessage(now: int) returns (passed: bool)
      modifies this
      ensures passed <==> Due(delay, old(lastMsgTime), now)
      ensures now >= old(lastMsgTime) ==>
        (passed <==> delay.Ms? && ((now - old(lastMsgTime)) / 1_000_000) as real >= delay.value)
      ensures now < old(lastMsgTime) ==>
        (passed <==> delay.Ms? && (-((old(lastMsgTime) - now) / 1_000_000)) as real >= delay.value)
      ensures lastMsgTime == if passed then now else old(lastMsgTime)
    {
      passed := Due(delay, lastMsgTime, now);
      if passed {
        lastMsgTime := now;
      }
    }
  }

  /** The decisions of one throttle over a run of arrivals. */
  function Passes(delay: Delay, last: int, times: seq<int>): (r: seq<bool>)
    ensures |r| == |times|
    decreases |times|
  {
    if times == [] then []
    else
      var pass := Due(delay, last, times[0]);
      [pass] + Passes(delay, if pass then times[0] else last, times[1..])
  }

  /** The filtra over a run of arrivals. */
  method Drive(f: ThrottleFilter, times: seq<int>) returns (passes: seq<bool>)
    modifies f
    ensures passes == Passes(f.delay, old(f.lastMsgTime), times)
  {
    passes := [];
    ghost var goal := Passes(f.delay, f.lastMsgTime, times);
    assert times[0..] == times;
    for i := 0 to |times|
      invariant passes + Passes(f.delay, f.lastMsgTime, times[i..]) == goal
    {
      assert times[i..][1..] == times[i + 1..];
      var passed := f.ProcessMessage(times[i]);
      passes := passes + [passed];
    }
  }

  predicate Monotone(last: int, times: seq<int>) {
    && (forall i :: 0 <= i < |times| ==> last <= times[i])
    && (forall i, j :: 0 <= i < j < |times| ==> times[i] <= times[j])
  }

  /** A choice of arrivals in which every chosen one is due after the one chosen before it, the
      first after `last`. */
  predicate Spaced(delay: Delay, last: int, times: seq<int>, keep: seq<bool>)
    requires |keep| == |times|
    decreases |times|
  {
    times == [] ||
    (if keep[0] then Due(delay, last, times[0]) && Spaced(delay, times[0], times[1..], keep[1..])
     else Spaced(delay, last, times[1..], keep[1..]))
  }

  function Count(keep: seq<bool>): nat {
    if keep == [] then 0 else (if keep[0] then 1 else 0) + Count(keep[1..])
  }

  lemma {:induction false} PassesAreSpaced(delay: Delay, last: int, times: seq<int>)
    ensures Spaced(delay, last, times, Passes(delay, last, times))
    decreases |times|
  {
    if times != [] {
      var pass := Due(delay, last, times[0]);
      PassesAreSpaced(delay, if pass then times[0] else last, times[1..]);
    }
  }

  lemma ElapsedMonotone(a: int, b: int, now: int)
    requires a <= b <= now
    ensures Elapsed(now, b) <= Elapsed(now, a)
  {
    var p, q := now - a, now - b;
    var m, n := p / NS_PER_MS, q / NS_PER_MS;
    assert p == m * NS_PER_MS + p % NS_PER_MS;
    assert q == n * NS_PER_MS + q % NS_PER_MS;
  }

  lemma DueMonotone(delay: Delay, a: int, b: int, now: int)
    requires a <= b <= now && Due(delay, b, now)
    ensures Due(delay, a, now)
  {
    ElapsedMonotone(a, b, now);
  }

  lemma MonotoneTail(last: int, times: seq<int>)
    requires Monotone(last, times) && times != []
    ensures Monotone(last, times[1..]) && Monotone(times[0], times[1..])
  {
  }

  /** An earlier last pass helps, but never by more than one message. */
  lemma {:induction false} OneApart(delay: Delay, a: int, b: int, times: seq<int>)
    requires a <= b && Monotone(b, times)
    ensures Count(Passes(delay, b, times)) <= Count(Passes(delay, a, times))
                                           <= Count(Passes(delay, b, times)) + 1
    decreases |times|
  {
    if times != [] {
      var now := times[0];
      MonotoneTail(b, times);
      if Due(delay, b, now) {
        DueMonotone(delay, a, b, now);
      } else if Due(delay, a, now) {
        OneApart(delay, b, now, times[1..]);
      } else {
        OneApart(delay, a, b, times[1..]);
      }
    }
  }

  /** Greedy is optimal: no spaced choice has more messages than the throttle passes. */
  lemma {:induction false} GreedyIsOptimal(delay: Delay, last: int, times: seq<int>, keep: seq<bool>)
    requires Monotone(last, times) && |keep| == |times| && Spaced(delay, last, times, keep)
    ensures Count(keep) <= Count(Passes(delay, last, times))
    decreases |times|
  {
    if times != [] {
      var now := times[0];
      MonotoneTail(last, times);
      if keep[0] {
        GreedyIsOptimal(delay, now, times[1..], keep[1..]);
      } else {
        GreedyIsOptimal(delay, last, times[1..], keep[1..]);
        if Due(delay, last, now) {
          OneApart(delay, last, now, times[1..]);
        }
      }
    }
  }

  // --------------------------------------------------------------------------------------------
  // Rate bound
  // --------------------------------------------------------------------------------------------

  /** Whole milliseconds between two passes: the delay rounded up. */
  function Gap(delay: Delay): int
    requires delay.Ms?
  {
    -((-delay.value).Floor)
  }

  lemma DueNeedsGap(delay: Delay, last: int, now: int)
    requires Due(delay, last, now) && last <= now
    ensures now - last >= Gap(delay) * NS_PER_MS
  {
    var e := Elapsed(now, last);
    assert -(e as real) <= -delay.value;
    assert -e <= (-delay.value).Floor;
  }

  /** The chosen arrivals span at least one gap each. */
  lemma {:induction false} SpacedSpan(delay: Delay, last: int, times: seq<int>, keep: seq<bool>)
    requires Monotone(last, times) && |keep| == |times| && Spaced(delay, last, times, keep)
    requires times != [] && delay.Ms? && Gap(delay) > 0
    ensures Count(keep) * Gap(delay) * NS_PER_MS <= times[|times| - 1] - last
    decreases |times|
  {
    MonotoneTail(last, times);
    var next := if keep[0] then times[0] else last;
    if keep[0] {
      DueNeedsGap(delay, last, times[0]);
    }
    if |times| > 1 {
      SpacedSpan(delay, next, times[1..], keep[1..]);
    } else {
      assert Count(keep[1..]) == 0;
    }
    var n, g := Count(keep[1..]), Gap(delay);
    assert (n + 1) * g == n * g + g;
  }

  lemma {:induction false} WindowOfSpaced(delay: Delay, last: int, times: seq<int>, keep: seq<bool>, window: nat)
    requires Monotone(last, times) && |keep| == |times| && Spaced(delay, last, times, keep)
    requires times != [] && delay.Ms? && Gap(delay) > 0
    requires times[|times| - 1] - times[0] <= window * NS_PER_MS
    ensures Count(keep) <= window / Gap(delay) + 1
    decreases |times|
  {
    MonotoneTail(last, times);
    if |times| == 1 {
      assert Count(keep[1..]) == 0;
      assert window / Gap(delay) >= 0;
    } else if keep[0] {
      SpacedSpan(delay, times[0], times[1..], keep[1..]);
      AtMostQuotient(Count(keep[1..]), Gap(delay), window);
    } else {
      WindowOfSpaced(delay, last, times[1..], keep[1..], window);
    }
  }

  lemma AtMostQuotient(n: nat, d: int, x: nat)
    requires d > 0 && n * d <= x
    ensures n <= x / d
  {
    var q := x / d;
    assert x == d * q + x % d;
    assert d * (n - q) == n * d - d * q;
    if n > q {
      AtLeast(d, n - q);
    }
  }

  lemma {:induction false} SpacedPrefix(delay: Delay, last: int, times: seq<int>, keep: seq<bool>, n: nat)
    requires |keep| == |times| && n <= |times| && Spaced(delay, last, times, keep)
    ensures Spaced(delay, last, times[..n], keep[..n])
    decreases n
  {
    if n > 0 {
      var next := if keep[0] then times[0] else last;
      SpacedPrefix(delay, next, times[1..], keep[1..], n - 1);
      assert times[..n][1..] == times[1..][..n - 1] && keep[..n][1..] == keep[1..][..n - 1];
    }
  }

  lemma {:induction false} SpacedSuffix(delay: Delay, last: int, times: seq<int>, keep: seq<bool>, n: nat)
    returns (last': int)
    requires Monotone(last, times) && |keep| == |times| && n <= |times|
    requires Spaced(delay, last, times, keep)
    ensures Monotone(last', times[n..]) && Spaced(delay, last', times[n..], keep[n..])
    decreases n
  {
    last' := last;
    if n > 0 {
      MonotoneTail(last, times);
      last' := SpacedSuffix(delay, if keep[0] then times[0] else last, times[1..], keep[1..], n - 1);
      assert times[1..][n - 1..] == times[n..] && keep[1..][n - 1..] == keep[n..];
    } else {
      assert times[0..] == times && keep[0..] == keep;
    }
  }

  /** Among the arrivals i .. j - 1, if they lie within `window` milliseconds, at most
      floor(window / ceil(delay)) + 1 pass. */
  lemma WindowBound(delay: Delay, last: int, times: seq<int>, i: nat, j: nat, window: nat)
    requires Monotone(last, times) && i < j <= |times| && delay.Ms? && delay.value > 0.0
    requires times[j - 1] - times[i] <= window * NS_PER_MS
    ensures Gap(delay) > 0
    ensures Count(Passes(delay, last, times)[i..j]) <= window / Gap(delay) + 1
  {
    assert (-delay.value).Floor < 0;
    var keep := Passes(delay, last, times);
    PassesAreSpaced(delay, last, times);
    SpacedPrefix(delay, last, times, keep, j);
    var last' := SpacedSuffix(delay, last, times[..j], keep[..j], i);
    assert times[..j][i..] == times[i..j] && keep[..j][i..] == keep[i..j];
    WindowOfSpaced(delay, last', times[i..j], keep[i..j], window);
  }

  lemma TimesMonotone(x: real, y: real, b: real)
    requires x <= y && b >= 0.0
    ensures x * b <= y * b
  {
    assert (y - x) * b >= 0.0;
    assert (y - x) * b == y * b - x * b;
  }

  lemma TimesStrict(x: real, y: real, b: real)
    requires x < y && b > 0.0
    ensures x * b < y * b
  {
    assert (y - x) * b > 0.0;
    assert (y - x) * b == y * b - x * b;
  }

  /** So many milliseconds are enough for one message at this rate of messages per second. */
  predicate Suffices(ms: int, rate: real) {
    ms as real * rate >= 1000.0
  }

  lemma SufficesIff(ms: int, rate: real)
    requires rate > 0.0
    ensures DelayOf(rate).Ms?
    ensures ms as real >= DelayOf(rate).value <==> Suffices(ms, rate)
  {
    var q := 1000.0 / rate;
    assert q * rate == 1000.0;
    if ms as real >= q {
      TimesMonotone(q, ms as real, rate);
    } else {
      TimesStrict(ms as real, q, rate);
    }
  }

  /** A message passes exactly when the whole milliseconds since the last one that passed suffice; with
      a rate of 0 none does. */
  lemma PassesAtRate(rate: real, last: int, now: int)
    requires rate >= 0.0 && last <= now
    ensures Due(DelayOf(rate), last, now) <==> rate > 0.0 && Suffices((now - last) / 1_000_000, rate)
  {
    if rate > 0.0 {
      SufficesIff((now - last) / 1_000_000, rate);
    }
  }

  lemma GapIsCeiling(delay: Delay)
    requires delay.Ms? && delay.value > 0.0
    ensures Gap(delay) > 0 && Gap(delay) as real >= delay.value > (Gap(delay) - 1) as real
  {
  }

  /** The gap is the least number of whole milliseconds that suffices. */
  lemma GapSuffices(rate: real)
    requires rate > 0.0
    ensures DelayOf(rate).Ms? && Gap(DelayOf(rate)) > 0
    ensures Suffices(Gap(DelayOf(rate)), rate) && !Suffices(Gap(DelayOf(rate)) - 1, rate)
  {
    SufficesIff(0, rate);
    GapIsCeiling(DelayOf(rate));
    SufficesIff(Gap(DelayOf(rate)), rate);
    SufficesIff(Gap(DelayOf(rate)) - 1, rate);
  }

  /** So a message passes exactly when that many milliseconds, in nanoseconds, are over. */
  lemma PassesAfterGap(rate: real, last: int, now: int)
    requires rate > 0.0 && last <= now
    ensures DelayOf(rate).Ms?
    ensures Due(DelayOf(rate), last, now) <==> now - last >= Gap(DelayOf(rate)) * 1_000_000
  {
    var ms, g := (now - last) / 1_000_000, Gap(DelayOf(rate));
    assert now - last == ms * 1_000_000 + (now - last) % 1_000_000;
    SufficesIff(0, rate);
    GapIsCeiling(DelayOf(rate));
  }

  lemma RateOfWindow(n: real, gap: real, window: real, rate: real)
    requires n >= 0.0 && rate > 0.0 && n * gap <= window && gap * rate >= 1000.0
    ensures n * 1000.0 <= window * rate
  {
    TimesMonotone(n * gap, window, rate);
    TimesMonotone(1000.0, gap * rate, n);
    assert (n * gap) * rate == n * (gap * rate);
  }

  lemma PassesFit(n: nat, g: int, window: nat)
    requires g > 0 && n <= window / g
    ensures n * g <= window
    ensures n as real * g as real <= window as real
  {
    assert window == g * (window / g) + window % g;
    assert (window / g - n) * g >= 0;
    assert (window / g - n) * g == g * (window / g) - n * g;
    assert (n * g) as real == n as real * g as real;
  }

  lemma RateOfCount(n: nat, g: int, window: nat, rate: real)
    requires g > 0 && rate > 0.0 && n <= window / g && Suffices(g, rate)
    ensures n as real * 1000.0 <= window as real * rate
  {
    PassesFit(n, g, window);
    RateOfWindow(n as real, g as real, window as real, rate);
  }

  /** The rate is kept: of the arrivals that lie within `window` milliseconds, those that pass, without
      the first of them, are at most `window` thousandths of the rate. */
  lemma RateIsKept(rate: real, last: int, times: seq<int>, i: nat, j: nat, window: nat)
    requires rate > 0.0 && Monotone(last, times) && i < j <= |times|
    requires times[j - 1] - times[i] <= window * 1_000_000
    ensures var n := Count(Passes(DelayOf(rate), last, times)[i..j]);
            n > 0 ==> (n - 1) as real * 1000.0 <= window as real * rate
  {
    GapSuffices(rate);
    WindowBound(DelayOf(rate), last, times, i, j, window);
    var n, g := Count(Passes(DelayOf(rate), last, times)[i..j]), Gap(DelayOf(rate));
    if n > 0 {
      RateOfCount(n - 1, g, window, rate);
    }
  }
}
