/** Requests and tokens per second of a serving benchmark, counted in one-second buckets
    (overlay/vllm/benchmarks/serve.py). */
module ServeMetrics {

  datatype Output = Output(success: bool, startTime: real, ttft: real, latency: real, itl: seq<real>)

  function EndTime(o: Output): real { o.startTime + o.latency }

  /** `int` of a float rounds toward zero. */
  function Truncate(r: real): int { if r >= 0.0 then r.Floor else -((-r).Floor) }

  function Ceiling(r: real): int { -((-r).Floor) }

  lemma TruncateMonotone(a: real, b: real)
    requires 0.0 <= a <= b
    ensures 0 <= Truncate(a) <= Truncate(b)
  {
  }

  lemma TruncateBelowCeiling(a: real, b: real)
    requires 0.0 <= a <= b
    ensures Truncate(a) <= Ceiling(b)
  {
  }

  function Successful(outputs: seq<Output>): seq<Output> {
    if outputs == [] then []
    else Successful(outputs[..|outputs| - 1]) + if outputs[|outputs| - 1].success then [outputs[|outputs| - 1]] else []
  }

  // ---------------------------------------------------------------------------------------
  // What the buckets should hold
  // ---------------------------------------------------------------------------------------

  ghost predicate NonNegativeLatencies(outs: seq<Output>) { forall o <- outs :: o.latency >= 0.0 }

  /** The time range of the requests. */
  ghost predicate IsRange(outs: seq<Output>, first: real, last: real) {
    && (forall o <- outs :: first <= o.startTime && o.startTime + o.latency <= last)
    && (exists o :: o in outs && o.startTime == first)
    && (exists o :: o in outs && o.startTime + o.latency == last)
  }

  function StartSecond(o: Output, first: real): int { Truncate(o.startTime - first) }

  function EndSecond(o: Output, first: real): int { Truncate(EndTime(o) - first) }

  predicate Touches(o: Output, first: real, second: int) { StartSecond(o, first) <= second <= EndSecond(o, first) }

  function Touching(outs: seq<Output>, first: real, second: int): nat {
    if outs == [] then 0
    else Touching(outs[..|outs| - 1], first, second) + if Touches(outs[|outs| - 1], first, second) then 1 else 0
  }

  function SecondsTouched(outs: seq<Output>, first: real): int {
    if outs == [] then 0
    else
      var o := outs[|outs| - 1];
      SecondsTouched(outs[..|outs| - 1], first) + (EndSecond(o, first) - StartSecond(o, first) + 1)
  }

  function Duration(first: real, last: real): int { Ceiling(last - first) + 1 }

  /** All seconds a request touches are buckets. */
  lemma SecondsAreBuckets(outs: seq<Output>, o: Output, first: real, last: real)
    requires NonNegativeLatencies(outs) && IsRange(outs, first, last) && o in outs
    ensures 0 <= StartSecond(o, first) <= EndSecond(o, first) < Duration(first, last)
  {
    TruncateMonotone(o.startTime - first, EndTime(o) - first);
    TruncateBelowCeiling(EndTime(o) - first, last - first);
  }

  predicate ActiveAt(o: Output, t: real) { o.startTime <= t <= EndTime(o) }

  function Active(outs: seq<Output>, t: real): nat {
    if outs == [] then 0
    else Active(outs[..|outs| - 1], t) + if ActiveAt(outs[|outs| - 1], t) then 1 else 0
  }

  /** A request active at an instant touches the second of the instant. */
  lemma ActiveTouches(o: Output, first: real, t: real)
    requires first <= o.startTime && o.latency >= 0.0 && ActiveAt(o, t)
    ensures Touches(o, first, Truncate(t - first))
  {
    TruncateMonotone(o.startTime - first, t - first);
    TruncateMonotone(t - first, EndTime(o) - first);
  }

  lemma {:induction false} ActiveAtMostTouching(outs: seq<Output>, first: real, t: real)
    requires forall o <- outs :: first <= o.startTime && o.latency >= 0.0
    ensures Active(outs, t) <= Touching(outs, first, Truncate(t - first)) <= |outs|
    decreases |outs|
  {
    if outs != [] {
      var rest, o := outs[..|outs| - 1], outs[|outs| - 1];
      assert o in outs;
      ActiveAtMostTouching(rest, first, t);
      if ActiveAt(o, t) { ActiveTouches(o, first, t); }
    }
  }

  // ---------------------------------------------------------------------------------------
  // Sums and maxima
  // ---------------------------------------------------------------------------------------

  function Sum(xs: seq<int>): int { if xs == [] then 0 else Sum(xs[..|xs| - 1]) + xs[|xs| - 1] }

  lemma {:induction false} SumOfIncrement(xs: seq<int>, i: nat)
    requires i < |xs|
    ensures Sum(xs[i := xs[i] + 1]) == Sum(xs) + 1
    decreases |xs|
  {
    var n := |xs| - 1;
    var ys := xs[i := xs[i] + 1];
    if i == n {
      assert ys[..n] == xs[..n];
    } else {
      SumOfIncrement(xs[..n], i);
      assert ys[..n] == xs[..n][i := xs[i] + 1];
    }
  }

  lemma {:induction false} SumOfZeros(xs: seq<int>)
    requires forall i | 0 <= i < |xs| :: xs[i] == 0
    ensures Sum(xs) == 0
    decreases |xs|
  {
    if xs != [] { SumOfZeros(xs[..|xs| - 1]); }
  }

  method MaxOf(a: array<int>) returns (max: int)
    requires a.Length > 0
    ensures max in a[..] && forall i | 0 <= i < a.Length :: a[i] <= max
  {
    max := a[0];
    for i := 1 to a.Length
      invariant max in a[..] && forall j | 0 <= j < i :: a[j] <= max
    {
      assert a[i] in a[..];
      if a[i] > max {
        max := a[i];
      }
    }
  }

  // ---------------------------------------------------------------------------------------
  // Counting requests
  // ---------------------------------------------------------------------------------------

  method SelectSuccessful(outputs: seq<Output>) returns (r: seq<Output>)
    ensures r == Successful(outputs)
  {
    r := [];
    for i := 0 to |outputs|
      invariant r == Successful(outputs[..i])
    {
      assert outputs[..i + 1][..i] == outputs[..i];
      if outputs[i].success {
        r := r + [outputs[i]];
      }
    }
    assert outputs[..|outputs|] == outputs;
  }

  method FindRange(outs: seq<Output>) returns (first: real, last: real)
    requires outs != []
    ensures IsRange(outs, first, last)
  {
    first, last := outs[0].startTime, EndTime(outs[0]);
    ghost var a, b := outs[0], outs[0];
    for i := 1 to |outs|
      invariant forall o <- outs[..i] :: first <= o.startTime && EndTime(o) <= last
      invariant a in outs && b in outs && a.startTime == first && EndTime(b) == last
    {
      assert outs[..i + 1] == outs[..i] + [outs[i]];
      if outs[i].startTime < first {
        first, a := outs[i].startTime, outs[i];
      }
      if EndTime(outs[i]) > last {
        last, b := EndTime(outs[i]), outs[i];
      }
    }
    assert outs[..|outs|] == outs;
  }

  /** The inner loop over the seconds of a request. */
  method CountRequest(buckets: array<int>, o: Output, first: real)
    requires 0 <= StartSecond(o, first) <= EndSecond(o, first) < buckets.Length
    modifies buckets
    ensures forall s | 0 <= s < buckets.Length ::
              buckets[s] == old(buckets[s]) + if Touches(o, first, s) then 1 else 0
    ensures Sum(buckets[..]) == old(Sum(buckets[..])) + (EndSecond(o, first) - StartSecond(o, first) + 1)
  {
    var start := Truncate(o.startTime - first);
    var end := Truncate((o.startTime + o.latency) - first);
    hide Truncate;
    for second := start to end + 1
      invariant forall s | 0 <= s < buckets.Length ::
                  buckets[s] == old(buckets[s]) + if start <= s < second then 1 else 0
      invariant Sum(buckets[..]) == old(Sum(buckets[..])) + (second - start)
    {
      Increment(buckets, second);
    }
  }

  // ---------------------------------------------------------------------------------------
  // Counting tokens
  // ---------------------------------------------------------------------------------------

  function TimesFrom(t: real, itl: seq<real>): seq<real> {
    if itl == [] then [t] else TimesFrom(t, itl[..|itl| - 1]) + [LastTime(t, itl)]
  }

  function LastTime(t: real, itl: seq<real>): real {
    if itl == [] then t else LastTime(t, itl[..|itl| - 1]) + itl[|itl| - 1]
  }

  /** When the tokens of a request arrived. */
  function TokenTimes(o: Output): seq<real> { TimesFrom(o.startTime + o.ttft, o.itl) }

  function AllTimes(outs: seq<Output>): seq<real> {
    if outs == [] then [] else AllTimes(outs[..|outs| - 1]) + TokenTimes(outs[|outs| - 1])
  }

  function TimesIn(times: seq<real>, first: real, second: int): nat {
    if times == [] then 0
    else TimesIn(times[..|times| - 1], first, second) + if Truncate(times[|times| - 1] - first) == second then 1 else 0
  }

  /** How many of the times fall into a bucket at all. */
  function TimesWithin(times: seq<real>, first: real, duration: int): nat {
    if times == [] then 0
    else
      TimesWithin(times[..|times| - 1], first, duration) +
      if 0 <= Truncate(times[|times| - 1] - first) < duration then 1 else 0
  }

  method CollectTokenTimes(o: Output) returns (times: seq<real>)
    ensures times == TokenTimes(o)
  {
    times := [o.startTime + o.ttft];
    var currentTime := times[0];
    for i := 0 to |o.itl|
      invariant currentTime == LastTime(o.startTime + o.ttft, o.itl[..i])
      invariant times == TimesFrom(o.startTime + o.ttft, o.itl[..i])
    {
      assert o.itl[..i + 1][..i] == o.itl[..i];
      currentTime := currentTime + o.itl[i];
      times := times + [currentTime];
    }
    assert o.itl[..|o.itl|] == o.itl;
  }

  lemma {:induction false} TimesConcat(a: seq<real>, b: seq<real>, first: real, second: int, duration: int)
    ensures TimesIn(a + b, first, second) == TimesIn(a, first, second) + TimesIn(b, first, second)
    ensures TimesWithin(a + b, first, duration) == TimesWithin(a, first, duration) + TimesWithin(b, first, duration)
    decreases |b|
  {
    if b == [] {
      assert a + b == a;
    } else {
      TimesConcat(a, b[..|b| - 1], first, second, duration);
      assert (a + b)[..|a + b| - 1] == a + b[..|b| - 1];
    }
  }

  /** The loop over the token times of a request. */
  method CountTokens(buckets: array<int>, times: seq<real>, first: real)
    modifies buckets
    ensures forall s | 0 <= s < buckets.Length :: buckets[s] == old(buckets[s]) + TimesIn(times, first, s)
    ensures Sum(buckets[..]) == old(Sum(buckets[..])) + TimesWithin(times, first, buckets.Length)
  {
    hide Truncate;
    for i := 0 to |times|
      invariant forall s | 0 <= s < buckets.Length :: buckets[s] == old(buckets[s]) + TimesIn(times[..i], first, s)
      invariant Sum(buckets[..]) == old(Sum(buckets[..])) + TimesWithin(times[..i], first, buckets.Length)
    {
      assert times[..i + 1][..i] == times[..i];
      var secondBucket := Truncate(times[i] - first);
      if 0 <= secondBucket < buckets.Length {
        Increment(buckets, secondBucket);
      }
    }
    assert times[..|times|] == times;
  }

  method Increment(buckets: array<int>, i: nat)
    requires i < buckets.Length
    modifies buckets
    ensures forall s | 0 <= s < buckets.Length :: buckets[s] == old(buckets[s]) + if s == i then 1 else 0
    ensures Sum(buckets[..]) == old(Sum(buckets[..])) + 1
  {
    SumOfIncrement(buckets[..], i);
    ghost var next := buckets[..][i := buckets[i] + 1];
    buckets[i] := buckets[i] + 1;
    assert buckets[..] == next;
  }

  /** Tokens that arrive while their request is active all fall into buckets. */
  lemma {:induction false} TokensAreCounted(outs: seq<Output>, first: real, last: real, o: Output, n: nat)
    requires NonNegativeLatencies(outs) && IsRange(outs, first, last) && o in outs && n <= |o.itl|
    requires o.ttft >= 0.0 && (forall i | 0 <= i < |o.itl| :: o.itl[i] >= 0.0)
    requires LastTime(o.startTime + o.ttft, o.itl[..n]) <= EndTime(o)
    ensures TimesWithin(TimesFrom(o.startTime + o.ttft, o.itl[..n]), first, Duration(first, last)) == n + 1
    ensures LastTime(o.startTime + o.ttft, o.itl[..n]) >= o.startTime
    decreases n
  {
    var start := o.startTime + o.ttft;
    hide LastTime, TimesFrom, TimesWithin, Truncate, Duration;
    var time := LastTime(start, o.itl[..n]);
    TimesOfPrefix(start, o.itl, n);
    assert first <= o.startTime && EndTime(o) <= last;
    hide IsRange, NonNegativeLatencies;
    if n == 0 {
      BucketOf(time, first, last);
      OneMoreTime([], time, first, Duration(first, last));
    } else {
      TokensAreCounted(outs, first, last, o, n - 1);
      BucketOf(time, first, last);
      OneMoreTime(TimesFrom(start, o.itl[..n - 1]), time, first, Duration(first, last));
    }
  }

  lemma TimesOfPrefix(start: real, itl: seq<real>, n: nat)
    requires n <= |itl|
    ensures LastTime(start, itl[..n]) == if n == 0 then start else LastTime(start, itl[..n - 1]) + itl[n - 1]
    ensures TimesFrom(start, itl[..n]) ==
              (if n == 0 then [] else TimesFrom(start, itl[..n - 1])) + [LastTime(start, itl[..n])]
  {
    if n > 0 {
      assert itl[..n][..n - 1] == itl[..n - 1];
    }
  }

  lemma OneMoreTime(times: seq<real>, time: real, first: real, duration: int)
    ensures TimesWithin(times + [time], first, duration) ==
            TimesWithin(times, first, duration) + if 0 <= Truncate(time - first) < duration then 1 else 0
    ensures times == [] ==> times + [time] == [time] && TimesWithin(times, first, duration) == 0
  {
    hide Truncate;
    assert (times + [time])[..|times|] == times;
  }

  lemma BucketOf(t: real, first: real, last: real)
    requires first <= t <= last
    ensures 0 <= Truncate(t - first) < Duration(first, last)
  {
    TruncateMonotone(0.0, t - first);
    TruncateBelowCeiling(t - first, last - first);
  }

  // ---------------------------------------------------------------------------------------
  // The metrics
  // ---------------------------------------------------------------------------------------

  datatype Metrics = Metrics(tokensPerSecond: seq<int>, requestsPerSecond: seq<int>, maxTokens: int, maxConcurrent: int)

  /** The bucketing of `calculate_metrics`: every bucket counts the requests that touch its second and the
      tokens that arrive in it, the buckets add up, and the maximum of concurrent requests is at least the number
      of successful requests active at any instant and at most their count. Also returns the time range. */
  method CountPerSecond(outputs: seq<Output>) returns (m: Metrics, first: real, last: real)
    requires NonNegativeLatencies(Successful(outputs))
    ensures
      var outs := Successful(outputs);
      && (outs != [] ==> IsRange(outs, first, last) && |m.requestsPerSecond| == Duration(first, last))
      && |m.tokensPerSecond| == |m.requestsPerSecond|
      && (forall s | 0 <= s < |m.requestsPerSecond| :: m.requestsPerSecond[s] == Touching(outs, first, s))
      && Sum(m.requestsPerSecond) == SecondsTouched(outs, first)
      && (forall s | 0 <= s < |m.tokensPerSecond| :: m.tokensPerSecond[s] == TimesIn(AllTimes(outs), first, s))
      && Sum(m.tokensPerSecond) == TimesWithin(AllTimes(outs), first, |m.tokensPerSecond|)
      && (forall t: real :: Active(outs, t) <= m.maxConcurrent)
      && 0 <= m.maxConcurrent <= |outs|
      && (outs == [] ==> m == Metrics([], [], 0, 0))
      && (outs != [] ==> m.maxConcurrent in m.requestsPerSecond)
      && (forall s | 0 <= s < |m.requestsPerSecond| :: m.requestsPerSecond[s] <= m.maxConcurrent)
      && (outs != [] ==> m.maxTokens in m.tokensPerSecond)
      && (forall s | 0 <= s < |m.tokensPerSecond| :: m.tokensPerSecond[s] <= m.maxTokens)
  {
    var outs := SelectSuccessful(outputs);
    hide IsRange, NonNegativeLatencies, Successful, Touching, SecondsTouched, AllTimes, TimesIn, TimesWithin, Active,
         Sum;
    m, first, last := Metrics([], [], 0, 0), 0.0, 0.0;
    NothingCounted(first);
    if outs != [] {
      first, last := FindRange(outs);
      RangeHasBuckets(outs, first, last);
      var durationSeconds := Ceiling(last - first) + 1;
      var tokens := new int[durationSeconds](_ => 0);
      var requests := new int[durationSeconds](_ => 0);
      SumOfZeros(tokens[..]);
      SumOfZeros(requests[..]);
      CountAll(tokens, requests, outs, first, last);
      assert tokens.Length == Duration(first, last);
      var maxTokens := MaxOf(tokens);
      var maxConcurrent := MaxOf(requests);
      MaximumBounds(requests[..], outs, first, last, maxConcurrent);
      m := Metrics(tokens[..], requests[..], maxTokens, maxConcurrent);
    }
  }

  lemma NothingCounted(first: real)
    ensures Sum([]) == SecondsTouched([], first) == 0 && TimesWithin(AllTimes([]), first, 0) == 0
    ensures forall t: real :: Active([], t) == 0
  {
  }

  method CountAll(tokens: array<int>, requests: array<int>, outs: seq<Output>, first: real, ghost last: real)
    requires NonNegativeLatencies(outs) && IsRange(outs, first, last)
    requires tokens != requests && tokens.Length == requests.Length == Duration(first, last)
    requires forall s | 0 <= s < requests.Length :: requests[s] == tokens[s] == 0
    requires Sum(requests[..]) == Sum(tokens[..]) == 0
    modifies tokens, requests
    ensures forall s | 0 <= s < requests.Length :: requests[s] == Touching(outs, first, s)
    ensures Sum(requests[..]) == SecondsTouched(outs, first)
    ensures forall s | 0 <= s < tokens.Length :: tokens[s] == TimesIn(AllTimes(outs), first, s)
    ensures Sum(tokens[..]) == TimesWithin(AllTimes(outs), first, tokens.Length)
  {
    hide IsRange, StartSecond, EndSecond, Touches, Duration, TimesIn, TimesWithin, Sum, TokenTimes;
    NoTimes(first, tokens.Length);
    for i := 0 to |outs|
      invariant forall s | 0 <= s < requests.Length :: requests[s] == Touching(outs[..i], first, s)
      invariant Sum(requests[..]) == SecondsTouched(outs[..i], first)
      invariant forall s | 0 <= s < tokens.Length :: tokens[s] == TimesIn(AllTimes(outs[..i]), first, s)
      invariant Sum(tokens[..]) == TimesWithin(AllTimes(outs[..i]), first, tokens.Length)
    {
      var o := outs[i];
      assert o in outs && outs[..i + 1][..i] == outs[..i];
      var tokenTimes := CollectTokenTimes(o);
      CountTokens(tokens, tokenTimes, first);
      MoreTimes(outs, i, first, tokens.Length);
      SecondsAreBuckets(outs, o, first, last);
      CountRequest(requests, o, first);
    }
    assert outs[..|outs|] == outs;
  }

  lemma MoreTimes(outs: seq<Output>, i: nat, first: real, duration: int)
    requires i < |outs|
    ensures
      var before, after, more := AllTimes(outs[..i]), AllTimes(outs[..i + 1]), TokenTimes(outs[i]);
      && (forall s: int :: TimesIn(after, first, s) == TimesIn(before, first, s) + TimesIn(more, first, s))
      && TimesWithin(after, first, duration) ==
          TimesWithin(before, first, duration) + TimesWithin(more, first, duration)
  {
    assert outs[..i + 1][..i] == outs[..i];
    assert AllTimes(outs[..i + 1]) == AllTimes(outs[..i]) + TokenTimes(outs[i]);
    hide AllTimes, TokenTimes, TimesIn, TimesWithin;
    TimesConcat(AllTimes(outs[..i]), TokenTimes(outs[i]), first, 0, duration);
    forall s: int
      ensures TimesIn(AllTimes(outs[..i + 1]), first, s) ==
              TimesIn(AllTimes(outs[..i]), first, s) + TimesIn(TokenTimes(outs[i]), first, s)
    {
      TimesConcat(AllTimes(outs[..i]), TokenTimes(outs[i]), first, s, duration);
    }
  }

  lemma NoTimes(first: real, duration: int)
    ensures TimesWithin([], first, duration) == 0 && forall s: int :: TimesIn([], first, s) == 0
  {
  }

  lemma RangeHasBuckets(outs: seq<Output>, first: real, last: real)
    requires outs != [] && NonNegativeLatencies(outs) && IsRange(outs, first, last)
    ensures Duration(first, last) > 0
  {
    assert outs[0] in outs;
    SecondsAreBuckets(outs, outs[0], first, last);
  }

  lemma {:induction false} TouchingAtMost(outs: seq<Output>, first: real, second: int)
    ensures 0 <= Touching(outs, first, second) <= |outs|
    decreases |outs|
  {
    if outs != [] { TouchingAtMost(outs[..|outs| - 1], first, second); }
  }

  lemma MaximumBounds(buckets: seq<int>, outs: seq<Output>, first: real, last: real, max: int)
    requires NonNegativeLatencies(outs) && IsRange(outs, first, last) && |buckets| == Duration(first, last)
    requires forall s | 0 <= s < |buckets| :: buckets[s] == Touching(outs, first, s)
    requires max in buckets && forall s | 0 <= s < |buckets| :: buckets[s] <= max
    ensures forall t: real :: Active(outs, t) <= max
    ensures 0 <= max <= |outs|
  {
    var s :| 0 <= s < |buckets| && buckets[s] == max;
    TouchingAtMost(outs, first, s);
    forall t: real
      ensures Active(outs, t) <= max
    {
      InstantInRange(outs, first, last, t);
      if Active(outs, t) > 0 {
        ActiveAtMostTouching(outs, first, t);
        assert buckets[Truncate(t - first)] <= max;
      }
    }
  }

  /** When something is active at an instant, the second of the instant is a bucket. */
  lemma {:induction false} InstantInRange(outs: seq<Output>, first: real, last: real, t: real)
    requires forall o <- outs :: o.latency >= 0.0 && first <= o.startTime && EndTime(o) <= last
    ensures Active(outs, t) > 0 ==> 0 <= Truncate(t - first) < Duration(first, last)
    decreases |outs|
  {
    if outs != [] {
      var o := outs[|outs| - 1];
      assert o in outs;
      if ActiveAt(o, t) {
        TruncateBelowCeiling(t - first, last - first);
        TruncateMonotone(0.0, t - first);
      } else {
        InstantInRange(outs[..|outs| - 1], first, last, t);
      }
    }
  }

  // ---------------------------------------------------------------------------------------
  // What is counted, one by one
  // ---------------------------------------------------------------------------------------

  function Yes(bs: seq<bool>): nat { if bs == [] then 0 else Yes(bs[..|bs| - 1]) + if bs[|bs| - 1] then 1 else 0 }

  /** A time since the start falls into a second: it is in it, or it is less than a second before the start and the
      second is the first one, because `int` rounds toward zero. */
  predicate InSecond(since: real, second: int) {
    if since >= 0.0 then second as real <= since < second as real + 1.0
    else second as real - 1.0 < since <= second as real
  }

  lemma TruncateSays(since: real, second: int)
    ensures Truncate(since) == second <==> InSecond(since, second)
  {
  }

  /** There is a bucket for the last second, and none is behind it. */
  lemma DurationSays(first: real, last: real)
    ensures var d := Duration(first, last);
            (d - 2) as real < last - first <= (d - 1) as real
  {
  }

  /** `at` are the positions of the successful requests, in order. */
  ghost predicate Selects(outputs: seq<Output>, at: seq<nat>) {
    && (forall k | 0 <= k < |at| :: at[k] < |outputs|)
    && (forall k, l | 0 <= k < l < |at| :: at[k] < at[l])
    && (forall i: nat | i < |outputs| :: i in at <==> outputs[i].success)
  }

  lemma SelectsMore(outputs: seq<Output>, before: seq<nat>) returns (at: seq<nat>)
    requires outputs != [] && Selects(outputs[..|outputs| - 1], before)
    ensures Selects(outputs, at)
    ensures at == if outputs[|outputs| - 1].success then before + [|outputs| - 1] else before
  {
    var n := |outputs| - 1;
    at := if outputs[n].success then before + [n] else before;
    forall i: nat | i < |outputs|
      ensures i in at <==> outputs[i].success
    {
      if i < n { assert outputs[..n][i] == outputs[i]; }
    }
  }

  /** The successful requests are those with the flag, all of them, in order. */
  lemma {:induction false} SuccessfulSays(outputs: seq<Output>) returns (at: seq<nat>)
    ensures Selects(outputs, at) && |Successful(outputs)| == |at|
    ensures forall k | 0 <= k < |at| :: Successful(outputs)[k] == outputs[at[k]]
    decreases |outputs|
  {
    if outputs == [] {
      at := [];
    } else {
      var rest := outputs[..|outputs| - 1];
      var before := SuccessfulSays(rest);
      assert forall k | 0 <= k < |before| :: before[k] < |rest|;
      at := SelectsMore(outputs, before);
      hide Selects;
      assert forall k | 0 <= k < |before| :: rest[before[k]] == outputs[before[k]];
    }
  }

  /** A request is active in a second when it starts before its end and ends at its start or later. */
  predicate SpansSecond(o: Output, first: real, second: int) {
    o.startTime - first < second as real + 1.0 && second as real <= o.startTime + o.latency - first
  }

  lemma TouchesSays(o: Output, first: real, second: nat)
    requires first <= o.startTime && o.latency >= 0.0
    ensures Touches(o, first, second) <==> SpansSecond(o, first, second)
  {
  }

  /** So a bucket counts the requests that are active in its second. */
  lemma {:induction false} TouchingSays(outs: seq<Output>, first: real, second: nat)
    requires forall o <- outs :: first <= o.startTime && o.latency >= 0.0
    ensures Touching(outs, first, second) ==
            Yes(seq(|outs|, i requires 0 <= i < |outs| => SpansSecond(outs[i], first, second)))
    decreases |outs|
  {
    var flags := seq(|outs|, i requires 0 <= i < |outs| => SpansSecond(outs[i], first, second));
    if outs != [] {
      var rest, o := outs[..|outs| - 1], outs[|outs| - 1];
      assert o in outs && forall x <- rest :: x in outs;
      TouchesSays(o, first, second);
      TouchingSays(rest, first, second);
      hide Touches, SpansSecond;
      assert flags[..|flags| - 1] == seq(|rest|, i requires 0 <= i < |rest| => SpansSecond(rest[i], first, second));
    }
  }

  lemma {:induction false} ActiveSays(outs: seq<Output>, t: real)
    ensures Active(outs, t) ==
            Yes(seq(|outs|, i requires 0 <= i < |outs| =>
              outs[i].startTime <= t <= outs[i].startTime + outs[i].latency))
    decreases |outs|
  {
    if outs != [] {
      var rest := outs[..|outs| - 1];
      ActiveSays(rest, t);
      var flags := seq(|outs|, i requires 0 <= i < |outs| =>
        outs[i].startTime <= t <= outs[i].startTime + outs[i].latency);
      assert flags[..|flags| - 1] == seq(|rest|, i requires 0 <= i < |rest| =>
        rest[i].startTime <= t <= rest[i].startTime + rest[i].latency);
    }
  }

  /** The seconds counted for all requests. */
  lemma {:induction false} SecondsTouchedSays(outs: seq<Output>, first: real)
    ensures SecondsTouched(outs, first) ==
            Sum(seq(|outs|, i requires 0 <= i < |outs| =>
              Truncate(outs[i].startTime + outs[i].latency - first) - Truncate(outs[i].startTime - first) + 1))
    decreases |outs|
  {
    if outs != [] {
      var rest := outs[..|outs| - 1];
      SecondsTouchedSays(rest, first);
      hide Truncate;
      var counts := seq(|outs|, i requires 0 <= i < |outs| =>
        Truncate(outs[i].startTime + outs[i].latency - first) - Truncate(outs[i].startTime - first) + 1);
      assert counts[..|counts| - 1] == seq(|rest|, i requires 0 <= i < |rest| =>
        Truncate(rest[i].startTime + rest[i].latency - first) - Truncate(rest[i].startTime - first) + 1);
    }
  }

  /** The tokens of a request arrive one inter-token latency after the other, from the time to the first one. */
  ghost predicate Arrive(o: Output, times: seq<real>) {
    && |times| == |o.itl| + 1 && times[0] == o.startTime + o.ttft
    && forall k | 0 <= k < |o.itl| :: times[k + 1] == times[k] + o.itl[k]
  }

  lemma {:induction false} TimesFromSays(t: real, itl: seq<real>)
    ensures var times := TimesFrom(t, itl);
            && |times| == |itl| + 1 && times[0] == t && times[|itl|] == LastTime(t, itl)
            && forall k | 0 <= k < |itl| :: times[k + 1] == times[k] + itl[k]
    decreases |itl|
  {
    if itl != [] {
      TimesFromSays(t, itl[..|itl| - 1]);
    }
  }

  lemma {:induction false} ArriveOnce(o: Output, a: seq<real>, b: seq<real>, k: nat)
    requires Arrive(o, a) && Arrive(o, b) && k <= |o.itl|
    ensures a[k] == b[k]
  {
    if k > 0 { ArriveOnce(o, a, b, k - 1); }
  }

  lemma TokenTimesSay(o: Output, times: seq<real>)
    ensures TokenTimes(o) == times <==> Arrive(o, times)
  {
    TimesFromSays(o.startTime + o.ttft, o.itl);
    if Arrive(o, times) {
      forall k: nat | k <= |o.itl| ensures times[k] == TokenTimes(o)[k] { ArriveOnce(o, times, TokenTimes(o), k); }
    }
  }

  lemma {:induction false} TimesInSays(times: seq<real>, first: real, second: int)
    ensures TimesIn(times, first, second) ==
            Yes(seq(|times|, k requires 0 <= k < |times| => InSecond(times[k] - first, second)))
    decreases |times|
  {
    if times != [] {
      var rest := times[..|times| - 1];
      TimesInSays(rest, first, second);
      TruncateSays(times[|times| - 1] - first, second);
      hide Truncate, InSecond;
      var flags := seq(|times|, k requires 0 <= k < |times| => InSecond(times[k] - first, second));
      assert flags[..|flags| - 1] == seq(|rest|, k requires 0 <= k < |rest| => InSecond(rest[k] - first, second));
    }
  }

  /** So a bucket counts, request by request, the tokens that arrive in its second. */
  lemma {:induction false} AllTimesSay(outs: seq<Output>, arrivals: seq<seq<real>>, first: real, second: int)
    requires |arrivals| == |outs| && forall i | 0 <= i < |outs| :: Arrive(outs[i], arrivals[i])
    ensures TimesIn(AllTimes(outs), first, second) ==
            Sum(seq(|outs|, i requires 0 <= i < |outs| => Yes(seq(|arrivals[i]|, k requires 0 <= k < |arrivals[i]| =>
              InSecond(arrivals[i][k] - first, second)))))
    decreases |outs|
  {
    if outs != [] {
      var n := |outs| - 1;
      var rest, before := outs[..n], arrivals[..n];
      AllTimesSay(rest, before, first, second);
      TokenTimesSay(outs[n], arrivals[n]);
      TimesConcat(AllTimes(rest), arrivals[n], first, second, 0);
      TimesInSays(arrivals[n], first, second);
      hide InSecond, TokenTimes, TimesIn, Arrive, Yes;
      var counts := seq(|outs|, i requires 0 <= i < |outs| =>
        Yes(seq(|arrivals[i]|, k requires 0 <= k < |arrivals[i]| => InSecond(arrivals[i][k] - first, second))));
      assert counts[..n] == seq(n, i requires 0 <= i < n => Yes(seq(|before[i]|, k requires 0 <= k < |before[i]| =>
        InSecond(before[i][k] - first, second)))) by {
        forall i | 0 <= i < n
          ensures counts[i] == Yes(seq(|before[i]|, k requires 0 <= k < |before[i]| =>
                    InSecond(before[i][k] - first, second)))
        {
          assert seq(|arrivals[i]|, k requires 0 <= k < |arrivals[i]| => InSecond(arrivals[i][k] - first, second)) ==
                 seq(|before[i]|, k requires 0 <= k < |before[i]| => InSecond(before[i][k] - first, second));
        }
      }
    }
  }
}
