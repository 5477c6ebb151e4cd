/** The token bucket in front of every Freshsales request (app/freshsales/client.py).

    A bucket earns tokens at a constant rate, so the instant `t` is worth
    `rate * t` earned tokens.  A run is the sequence of clock readings the limiter
    takes, one per turn of the loop in `acquire`; the lemmas up to `WindowBound`
    measure those readings in earned tokens.  They say exactly when a reading is
    granted, and from that how many grants any window of time can hold.
 */
module RateLimiter {

  datatype Bucket = Bucket(capacity: real, tokens: real, earned: real)

  function Min(a: real, b: real): real {
    if a <= b then a else b
  }

  /** Tokens available once the total earned has reached `earned`. */
  function Level(b: Bucket, earned: real): real {
    Min(b.capacity, b.tokens + (earned - b.earned))
  }

  /** One turn of the loop: refill, then take a token if a whole one is there. */
  function Turn(b: Bucket, earned: real): Bucket {
    var level := Level(b, earned);
    b.(tokens := if level >= 1.0 then level - 1.0 else level, earned := earned)
  }

  function After(b: Bucket, run: seq<real>): Bucket {
    if run == [] then b else Turn(After(b, run[..|run| - 1]), run[|run| - 1])
  }

  /** Reading `k` takes a token. */
  predicate Granted(b: Bucket, run: seq<real>, k: nat)
    requires k < |run|
  {
    Level(After(b, run[..k]), run[k]) >= 1.0
  }

  /** Grants among readings `i` up to but not including `j`. */
  function Grants(b: Bucket, run: seq<real>, i: nat, j: nat): nat
    requires i <= j <= |run|
  {
    if i == j then 0
    else Grants(b, run, i, j - 1) + if Granted(b, run, j - 1) then 1 else 0
  }

  /** Earned tokens never shrink, and the bucket was full when it was made. */
  ghost predicate Run(b: Bucket, run: seq<real>) {
    && b.tokens == b.capacity >= 1.0
    && (|run| > 0 ==> b.earned <= run[0])
    && Ordered(run)
  }

  ghost predicate Ordered(run: seq<real>) {
    forall i, j :: 0 <= i <= j < |run| ==> run[i] <= run[j]
  }

  /** What the window that opens at reading `i` still allows once `earned` is reached. */
  function Headroom(b: Bucket, run: seq<real>, i: nat, earned: real): real
    requires i <= |run|
  {
    b.capacity - Grants(b, run, i, |run|) as real + if i < |run| then earned - run[i] else 0.0
  }

  lemma {:induction false} GrantsOfPrefix(b: Bucket, run: seq<real>, longer: seq<real>, i: nat, j: nat)
    requires i <= j <= |run| && run <= longer
    ensures Grants(b, run, i, j) == Grants(b, longer, i, j)
    decreases j
  {
    if i < j {
      GrantsOfPrefix(b, run, longer, i, j - 1);
      assert run[..j - 1] == longer[..j - 1];
    }
  }

  lemma NoGrants(b: Bucket, run: seq<real>, i: nat)
    requires i <= |run|
    ensures Grants(b, run, i, i) == 0
  {
  }

  lemma {:induction false} AfterEarned(b: Bucket, run: seq<real>)
    ensures After(b, run).capacity == b.capacity
    ensures After(b, run).earned == if run == [] then b.earned else run[|run| - 1]
  {
    if run != [] {
      AfterEarned(b, run[..|run| - 1]);
    }
  }

  /** One more reading: the run before it is as it was, and it is a turn of its own. */
  lemma RunSnoc(b: Bucket, run: seq<real>, earned: real)
    ensures var longer := run + [earned];
            && After(b, longer) == Turn(After(b, run), earned)
            && (forall k :: 0 <= k < |run| ==> (Granted(b, longer, k) <==> Granted(b, run, k)))
            && (Granted(b, longer, |run|) <==> Level(After(b, run), earned) >= 1.0)
            && forall i :: 0 <= i <= |run| ==>
                 Grants(b, longer, i, |run| + 1)
                 == Grants(b, run, i, |run|) + if Granted(b, longer, |run|) then 1 else 0
  {
    var longer := run + [earned];
    assert longer[..|run|] == run;
    assert forall k :: 0 <= k < |run| ==> longer[..k] == run[..k];
    hide After;
    forall i | 0 <= i <= |run|
      ensures Grants(b, longer, i, |run| + 1) == Grants(b, run, i, |run|) + if Granted(b, longer, |run|) then 1 else 0
    {
      GrantsOfPrefix(b, run, longer, i, |run|);
    }
  }

  /** Tokens taken by the last reading of `run + [last]`. */
  function TakenAt(b: Bucket, run: seq<real>, last: real): real {
    if Level(After(b, run), last) >= 1.0 then 1.0 else 0.0
  }

  lemma LevelStep(b: Bucket, run: seq<real>, last: real, earned: real)
    ensures Level(After(b, run + [last]), earned)
         == Min(b.capacity, Level(After(b, run), last) - TakenAt(b, run, last) + (earned - last))
  {
    RunSnoc(b, run, last);
    AfterEarned(b, run);
    hide After;
  }

  lemma HeadroomStep(b: Bucket, run: seq<real>, last: real, earned: real, i: nat)
    requires i <= |run|
    ensures Headroom(b, run + [last], i, earned) == Headroom(b, run, i, last) - TakenAt(b, run, last) + (earned - last)
  {
    RunSnoc(b, run, last);
    if i < |run| {
      assert (run + [last])[i] == run[i];
    } else {
      NoGrants(b, run, i);
    }
    hide After, Grants, Granted, Level;
  }

  lemma NewestHeadroom(b: Bucket, run: seq<real>, earned: real)
    ensures Headroom(b, run, |run|, earned) == b.capacity
  {
    NoGrants(b, run, |run|);
  }

  /** The level is the tightest headroom: no window allows less, and some window
      allows exactly that much. */
  lemma {:induction false} LevelIsTightestHeadroom(b: Bucket, run: seq<real>, earned: real)
    returns (tightest: nat)
    requires Run(b, run + [earned])
    ensures tightest <= |run|
    ensures Level(After(b, run), earned) == Headroom(b, run, tightest, earned)
    ensures forall i: nat :: i <= |run| ==> Level(After(b, run), earned) <= Headroom(b, run, i, earned)
    decreases |run|
  {
    var n := |run|;
    NewestHeadroom(b, run, earned);
    if n == 0 {
      tightest := 0;
    } else {
      var shorter, last := run[..n - 1], run[n - 1];
      assert run == shorter + [last];
      RunPrefix(b, shorter, last, earned);
      hide Run, After, Level, Headroom, TakenAt;
      var before := LevelIsTightestHeadroom(b, shorter, last);
      LevelStep(b, shorter, last, earned);
      HeadroomStep(b, shorter, last, earned, before);
      forall i: nat | i < n
        ensures Headroom(b, run, i, earned)
             == Headroom(b, shorter, i, last) - TakenAt(b, shorter, last) + (earned - last)
      {
        HeadroomStep(b, shorter, last, earned, i);
      }
      tightest := if b.capacity <= Headroom(b, run, before, earned) then n else before;
    }
  }

  lemma RunPrefix(b: Bucket, run: seq<real>, last: real, earned: real)
    requires Run(b, run + [last] + [earned])
    ensures Run(b, run + [last])
  {
    var longer := run + [last] + [earned];
    assert forall i :: 0 <= i <= |run| ==> (run + [last])[i] == longer[i];
  }

  /** A reading is granted exactly when granting it keeps every window's bound: the
      limiter refuses nothing it could allow and allows nothing it should refuse. */
  lemma GrantedIffEveryWindowAllows(b: Bucket, run: seq<real>, k: nat)
    requires Run(b, run) && k < |run|
    ensures Granted(b, run, k) <==>
            forall i: nat :: i <= k ==> Grants(b, run, i, k) as real + 1.0 <= b.capacity + (run[k] - run[i])
  {
    var earlier := run[..k];
    assert forall i :: 0 <= i <= k ==> (earlier + [run[k]])[i] == run[i];
    var tightest := LevelIsTightestHeadroom(b, earlier, run[k]);
    forall i: nat | i <= k
      ensures Headroom(b, earlier, i, run[k]) == b.capacity - Grants(b, run, i, k) as real + (run[k] - run[i])
    {
      GrantsOfPrefix(b, earlier, run, i, k);
    }
  }

  /** Grants from one reading to another stay within the bound for what was earned
      between them. */
  lemma {:induction false} WindowBound(b: Bucket, run: seq<real>, i: nat, j: nat)
    requires Run(b, run) && i <= j < |run|
    ensures Grants(b, run, i, j + 1) as real <= b.capacity + (run[j] - run[i])
    decreases j
  {
    assert Grants(b, run, i, j + 1) == Grants(b, run, i, j) + if Granted(b, run, j) then 1 else 0;
    if Granted(b, run, j) {
      GrantedIffEveryWindowAllows(b, run, j);
    } else if i < j {
      WindowBound(b, run, i, j - 1);
    }
  }

  lemma {:induction false} TokensStayInRange(b: Bucket, run: seq<real>)
    requires Run(b, run)
    ensures 0.0 <= After(b, run).tokens <= b.capacity
  {
    if run != [] {
      var shorter := run[..|run| - 1];
      TokensStayInRange(b, shorter);
      AfterEarned(b, shorter);
      assert After(b, run) == Turn(After(b, shorter), run[|run| - 1]);
      assert After(b, shorter).earned <= run[|run| - 1];
    }
  }

  /** A full bucket grants `capacity` readings at one instant and refuses the next,
      so the bound is reached. */
  lemma {:induction false} BurstIsTight(maxPerHour: nat, earned: real, n: nat)
    requires 1 <= maxPerHour && n <= maxPerHour
    ensures After(Bucket(maxPerHour as real, maxPerHour as real, earned), seq(n, _ => earned))
         == Bucket(maxPerHour as real, (maxPerHour - n) as real, earned)
    ensures Granted(Bucket(maxPerHour as real, maxPerHour as real, earned), seq(n + 1, _ => earned), n)
       <==> n < maxPerHour
  {
    var b := Bucket(maxPerHour as real, maxPerHour as real, earned);
    assert seq(n + 1, _ => earned)[..n] == seq(n, _ => earned);
    if n > 0 {
      BurstIsTight(maxPerHour, earned, n - 1);
      assert seq(n, _ => earned)[..n - 1] == seq(n - 1, _ => earned);
    }
  }

  // Wall-clock time

  /** Tokens earned in `seconds`. */
  function Worth(rate: real, seconds: real): real {
    rate * seconds
  }

  lemma WorthMonotone(rate: real, a: real, b: real)
    requires rate >= 0.0 && a <= b
    ensures Worth(rate, a) <= Worth(rate, b)
  {
  }

  lemma WorthBetween(rate: real, from: real, to: real)
    ensures Worth(rate, to - from) == Worth(rate, to) - Worth(rate, from)
  {
  }

  function Earned(rate: real, readings: seq<real>): (run: seq<real>)
    ensures |run| == |readings|
  {
    seq(|readings|, i requires 0 <= i < |readings| => Worth(rate, readings[i]))
  }

  lemma EarnedSnoc(rate: real, readings: seq<real>, now: real)
    ensures Earned(rate, readings + [now]) == Earned(rate, readings) + [Worth(rate, now)]
  {
  }

  lemma OrderedSnoc(made: real, readings: seq<real>, now: real)
    requires Ordered([made] + readings) && ([made] + readings)[|readings|] <= now
    ensures Ordered([made] + (readings + [now])) && ([made] + (readings + [now]))[|readings| + 1] == now
  {
    assert [made] + (readings + [now]) == [made] + readings + [now];
  }

  /** A full bucket made at the instant `made`. */
  function Fresh(capacity: real, rate: real, made: real): Bucket {
    Bucket(capacity, capacity, Worth(rate, made))
  }

  /** Requests let through at instants from `s` to `t`, among the first `n` readings. */
  function GrantsWithin(b: Bucket, rate: real, readings: seq<real>, s: real, t: real, n: nat): nat
    requires n <= |readings|
  {
    if n == 0 then 0
    else GrantsWithin(b, rate, readings, s, t, n - 1)
         + if s <= readings[n - 1] <= t && Granted(b, Earned(rate, readings), n - 1) then 1 else 0
  }

  lemma FreshRun(capacity: real, rate: real, made: real, readings: seq<real>)
    requires capacity >= 1.0 && rate >= 0.0 && Ordered([made] + readings)
    ensures Run(Fresh(capacity, rate, made), Earned(rate, readings))
  {
    hide Worth;
    var all := [made] + readings;
    forall i, j | 0 <= i <= j < |all| ensures Worth(rate, all[i]) <= Worth(rate, all[j]) {
      WorthMonotone(rate, all[i], all[j]);
    }
    assert forall i :: 0 <= i < |readings| ==> readings[i] == all[i + 1];
    assert all[0] == made;
  }

  /** Grants inside a window are among those from its first reading on. */
  lemma {:induction false} WithinIsBetween(
    b: Bucket, rate: real, readings: seq<real>, s: real, t: real, i: nat, n: nat)
    requires i <= |readings| && n <= |readings|
    requires forall k :: 0 <= k < i ==> readings[k] < s
    ensures GrantsWithin(b, rate, readings, s, t, n)
         <= if n < i then 0 else Grants(b, Earned(rate, readings), i, n)
    decreases n
  {
    hide Worth;
    if n > 0 {
      WithinIsBetween(b, rate, readings, s, t, i, n - 1);
    }
  }

  lemma FirstReadingFrom(readings: seq<real>, s: real, n: nat) returns (i: nat)
    requires n < |readings| && s <= readings[n]
    ensures i <= n && s <= readings[i]
    ensures forall k :: 0 <= k < i ==> readings[k] < s
  {
    i := 0;
    while readings[i] < s
      invariant i <= n
      invariant forall k :: 0 <= k < i ==> readings[k] < s
      decreases n - i
    {
      i := i + 1;
    }
  }

  /** Sliding-window bound: whatever the readings, at most `capacity + rate * (t - s)`
      requests are let through at instants from `s` to `t`. */
  lemma {:induction false} SlidingWindowBound(
    capacity: real, rate: real, made: real, readings: seq<real>, s: real, t: real, n: nat)
    requires capacity >= 1.0 && rate >= 0.0 && Ordered([made] + readings)
    requires s <= t && n <= |readings|
    ensures GrantsWithin(Fresh(capacity, rate, made), rate, readings, s, t, n) as real
         <= capacity + Worth(rate, t - s)
    decreases n
  {
    assert Worth(rate, 0.0) == 0.0;
    WorthMonotone(rate, 0.0, t - s);
    hide Worth;
    var b := Fresh(capacity, rate, made);
    if n > 0 {
      if s <= readings[n - 1] <= t {
        var i := FirstReadingFrom(readings, s, n - 1);
        WithinIsBetween(b, rate, readings, s, t, i, n);
        FreshRun(capacity, rate, made, readings);
        WindowBound(b, Earned(rate, readings), i, n - 1);
        WorthBetween(rate, readings[i], readings[n - 1]);
        WorthMonotone(rate, readings[n - 1] - readings[i], t - s);
      } else {
        SlidingWindowBound(capacity, rate, made, readings, s, t, n - 1);
      }
    }
  }

  /** Seconds until the bucket holds a whole token. */
  function WaitTime(rate: real, tokens: real): real
    requires rate > 0.0
  {
    (1.0 - tokens) / rate
  }

  lemma SleepRefills(rate: real, tokens: real, from: real, now: real)
    requires rate > 0.0 && from + WaitTime(rate, tokens) <= now
    ensures tokens + Worth(rate, now - from) >= 1.0
  {
    assert Worth(rate, WaitTime(rate, tokens)) == 1.0 - tokens;
    hide Worth, WaitTime;
    WorthMonotone(rate, WaitTime(rate, tokens), now - from);
  }

  /** The wait is no longer than it must be: any reading before its end finds less than a
      whole token. */
  lemma WaitIsShortest(rate: real, tokens: real, from: real, now: real)
    requires rate > 0.0
    ensures tokens + Worth(rate, now - from) >= 1.0 <==> from + WaitTime(rate, tokens) <= now
  {
    if from + WaitTime(rate, tokens) <= now {
      SleepRefills(rate, tokens, from, now);
    } else {
      var short := from + WaitTime(rate, tokens) - now;
      assert rate * short > 0.0;
      assert rate * WaitTime(rate, tokens) == 1.0 - tokens;
      assert now - from == WaitTime(rate, tokens) - short;
      assert rate * (WaitTime(rate, tokens) - short) == rate * WaitTime(rate, tokens) - rate * short;
    }
  }

  /** `time.monotonic` and `asyncio.sleep`: the clock never goes back, and a sleep
      lasts at least as long as it was asked to. */
  class Clock {
    var now: real

    method Monotonic() returns (t: real)
      modifies this
      ensures old(now) <= now == t
    {
      var elapsed: real :| elapsed >= 0.0;
      now := now + elapsed;
      t := now;
    }

    method Sleep(seconds: real)
      modifies this
      ensures old(now) <= now && old(now) + seconds <= now
    {
      var overrun: real :| overrun >= 0.0;
      now := now + overrun + if seconds > 0.0 then seconds else 0.0;
    }
  }

  class RateLimiter {
    const capacity: real
    const refillRate: real
    var tokens: real
    var updatedAt: real
    ghost const made: real
    ghost var readings: seq<real>

    /** The fields are what the run of readings so far leaves of a full bucket. */
    ghost predicate Valid()
      reads this
    {
      && capacity >= 1.0 && refillRate > 0.0
      && Ordered([made] + readings)
      && updatedAt == ([made] + readings)[|readings|]
      && After(Full(), EarnedAt()) == Bucket(capacity, tokens, Worth(refillRate, updatedAt))
    }

    ghost function Full(): Bucket {
      Fresh(capacity, refillRate, made)
    }

    ghost function EarnedAt(): (run: seq<real>)
      reads `readings
      ensures |run| == |readings|
    {
      Earned(refillRate, readings)
    }

    ghost predicate GrantedAt(k: nat)
      requires k < |readings|
      reads `readings
    {
      Granted(Full(), EarnedAt(), k)
    }

    /** Requests let through so far. */
    ghost function Total(): nat
      reads `readings
    {
      Grants(Full(), EarnedAt(), 0, |readings|)
    }

    /** The sliding-window bound holds of every limiter at every moment of its life. */
    lemma LetThroughAtMost(s: real, t: real)
      requires Valid() && s <= t
      ensures GrantsWithin(Full(), refillRate, readings, s, t, |readings|) as real
           <= capacity + Worth(refillRate, t - s)
    {
      hide Worth, After;
      SlidingWindowBound(capacity, refillRate, made, readings, s, t, |readings|);
    }

    constructor (maxPerHour: nat, clock: Clock)
      requires maxPerHour >= 1
      modifies clock
      ensures Valid() && readings == []
      ensures capacity == maxPerHour as real && refillRate == maxPerHour as real / 3600.0
      ensures updatedAt <= clock.now
    {
      var now := clock.Monotonic();
      capacity := maxPerHour as real;
      tokens := maxPerHour as real;
      refillRate := maxPerHour as real / 3600.0;
      updatedAt := now;
      made, readings := now, [];
    }

    /** Takes at most two readings: the last is granted, one before it is refused. */
    method Acquire(clock: Clock)
      requires Valid() && updatedAt <= clock.now
      modifies this, clock
      ensures Valid() && updatedAt <= clock.now && old(clock.now) <= clock.now
      ensures old(readings) < readings && |readings| <= |old(readings)| + 2
      ensures Total() == old(Total()) + 1
      ensures forall k :: 0 <= k < |old(readings)| ==> (GrantedAt(k) <==> old(GrantedAt(k)))
      ensures forall k :: |old(readings)| <= k < |readings| ==>
                            old(clock.now) <= readings[k] <= clock.now && (GrantedAt(k) <==> k == |readings| - 1)
    {
      hide Worth, WaitTime, Granted, Earned;
      var slept := false;
      while true
        invariant Valid() && updatedAt <= clock.now && old(clock.now) <= clock.now
        invariant old(readings) <= readings
        invariant |readings| == |old(readings)| + if slept then 1 else 0
        invariant forall k :: 0 <= k < |old(readings)| ==> (GrantedAt(k) <==> old(GrantedAt(k)))
        invariant slept ==> old(clock.now) <= readings[|old(readings)|] == updatedAt && !GrantedAt(|old(readings)|)
        invariant Total() == old(Total())
        invariant slept ==> updatedAt + WaitTime(refillRate, tokens) <= clock.now
        decreases !slept
      {
        var now := clock.Monotonic();
        if slept {
          SleepRefills(refillRate, tokens, updatedAt, now);
        }
        Refill(now);
        assert readings[|readings| - 1] == now;
        if tokens >= 1.0 {
          tokens := tokens - 1.0;
          return;
        }
        clock.Sleep(WaitTime(refillRate, tokens));
        slept := true;
      }
    }

    /** The refill half of a turn; what is left to do is to take a token if there is one. */
    method Refill(now: real)
      requires Valid() && updatedAt <= now
      modifies this
      ensures updatedAt == now && readings == old(readings) + [now]
      ensures tokens == Min(capacity, old(tokens) + Worth(refillRate, now - old(updatedAt)))
      ensures Ordered([made] + readings)
      ensures After(Full(), EarnedAt())
           == Bucket(capacity, if tokens >= 1.0 then tokens - 1.0 else tokens, Worth(refillRate, now))
      ensures forall k :: 0 <= k < |old(readings)| ==> (GrantedAt(k) <==> old(GrantedAt(k)))
      ensures GrantedAt(|old(readings)|) <==> tokens >= 1.0
      ensures Total() == old(Total()) + if tokens >= 1.0 then 1 else 0
    {
      hide Worth, After, Granted, Grants, Fresh;
      var elapsed := now - updatedAt;
      tokens := Min(capacity, tokens + Worth(refillRate, elapsed));
      WorthBetween(refillRate, updatedAt, now);
      OrderedSnoc(made, readings, now);
      EarnedSnoc(refillRate, readings, now);
      hide Ordered, Earned;
      RunSnoc(Full(), EarnedAt(), Worth(refillRate, now));
      updatedAt := now;
      readings := readings + [now];
    }
  }
}
