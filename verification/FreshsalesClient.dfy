/** Retries and paginators of the Freshsales client (app/freshsales/client.py). */
module FreshsalesClient {
  import opened Common
  import Limiter = RateLimiter

  // Retries

  const MAX_RETRY_AFTER_SECONDS: real := 30.0
  const MAX_ATTEMPTS: nat := 4

  /** The `Retry-After` header; only its delay-seconds form is understood
      (section 10.2.3 of RFC 9110). */
  datatype RetryAfter = Absent | Unparsable | Seconds(seconds: real)

  datatype Answer<+T> =
    | Body(body: T)
    | Status(code: nat, header: RetryAfter)
    | TransportError
    | OtherError

  function RetryAfterSeconds<T>(answer: Answer<T>): Option<real> {
    match answer
    case Status(_, Seconds(s)) => Some(s)
    case _ => None
  }

  predicate IsRetryable<T>(answer: Answer<T>) {
    match answer
    case Status(code, _) =>
      if code == 429 then
        var after := RetryAfterSeconds(answer);
        after.None? || after.value <= MAX_RETRY_AFTER_SECONDS
      else
        code >= 500
    case TransportError => true
    case _ => false
  }

  /** `wait_exponential(multiplier=1, min=1, max=30)` after attempt `attempt`. */
  function Exponential(attempt: nat): real
    requires 1 <= attempt
  {
    if attempt == 1 then 1.0 else Limiter.Min(2.0 * Exponential(attempt - 1), 30.0)
  }

  function WaitStrategy<T>(answer: Answer<T>, attempt: nat): real
    requires 1 <= attempt
  {
    match RetryAfterSeconds(answer)
    case Some(s) => Limiter.Min(s, MAX_RETRY_AFTER_SECONDS)
    case None => Exponential(attempt)
  }

  /** Seconds really slept: `asyncio.sleep` returns at once for a negative wait. */
  function Slept<T>(answer: Answer<T>, attempt: nat): real
    requires 1 <= attempt
  {
    var wait := WaitStrategy(answer, attempt);
    if wait < 0.0 then 0.0 else wait
  }

  /** Seconds slept between the first `attempts` attempts. */
  function Backoff<T>(server: nat -> Answer<T>, attempts: nat): (seconds: real)
    ensures seconds >= 0.0
  {
    if attempts <= 1 then 0.0
    else Backoff(server, attempts - 1) + Slept(server(attempts - 1), attempts - 1)
  }

  /** What the client counts as passing, in codes and headers: a transport error, a server
      error, or a throttle that does not ask for more than 30 seconds. */
  predicate Transient<T>(answer: Answer<T>) {
    || answer.TransportError?
    || (answer.Status? && answer.code >= 500)
    || (answer.Status? && answer.code == 429 && !(answer.header.Seconds? && answer.header.seconds > 30.0))
  }

  /** The three waits of a call: what the server asks for, up to 30 s, else 1, 2 and 4 s. */
  lemma WaitsAre<T>(answer: Answer<T>, attempt: nat)
    requires 1 <= attempt <= 3
    ensures answer.Status? && answer.header.Seconds? ==>
              WaitStrategy(answer, attempt) == if answer.header.seconds <= 30.0 then answer.header.seconds else 30.0
    ensures !(answer.Status? && answer.header.Seconds?) ==>
              WaitStrategy(answer, attempt) == if attempt == 1 then 1.0 else if attempt == 2 then 2.0 else 4.0
  {
    assert Exponential(1) == 1.0 && Exponential(2) == 2.0 && Exponential(3) == 4.0;
  }

  /** A throttle that is retried at all is waited out in full, and no wait passes 30 s. */
  lemma ThrottleIsHonoured<T>(answer: Answer<T>, attempt: nat)
    requires 1 <= attempt && IsRetryable(answer)
    ensures WaitStrategy(answer, attempt) <= 30.0
    ensures answer.Status? && answer.code == 429 && answer.header.Seconds? ==>
              WaitStrategy(answer, attempt) == answer.header.seconds
    ensures !(answer.Status? && answer.header.Seconds?) ==> WaitStrategy(answer, attempt) >= 1.0
  {
    ExponentialRange(attempt);
  }

  lemma {:induction false} ExponentialRange(attempt: nat)
    requires 1 <= attempt
    ensures 1.0 <= Exponential(attempt) <= 30.0
  {
    if attempt > 1 {
      ExponentialRange(attempt - 1);
    }
  }

  /** One call never sleeps for more than 90 s between its attempts, and for 7 s at
      most when the server sends no `Retry-After`. */
  lemma {:induction false} BackoffBound<T>(server: nat -> Answer<T>, attempts: nat)
    requires attempts <= MAX_ATTEMPTS
    requires forall k: nat :: 1 <= k < attempts ==> IsRetryable(server(k))
    ensures Backoff(server, attempts) <= 90.0
    ensures (forall k: nat :: 1 <= k < attempts ==> RetryAfterSeconds(server(k)).None?) ==>
              Backoff(server, attempts) <= 7.0
  {
    if attempts > 1 {
      BackoffBound(server, attempts - 1);
      ThrottleIsHonoured(server(attempts - 1), attempts - 1);
      assert Exponential(1) == 1.0 && Exponential(2) == 2.0 && Exponential(3) == 4.0;
    }
  }

  /** `get` and `post`: `server(k)` is what attempt `k` meets.  Every attempt acquires
      the limiter once, so the limiter's bound covers the retries too. */
  method Call<T>(limiter: Limiter.RateLimiter, clock: Limiter.Clock, server: nat -> Answer<T>)
    returns (answer: Answer<T>, attempts: nat)
    requires limiter.Valid() && limiter.updatedAt <= clock.now
    modifies limiter, clock
    ensures limiter.Valid() && limiter.updatedAt <= clock.now
    ensures 1 <= attempts <= MAX_ATTEMPTS && answer == server(attempts)
    ensures forall k: nat :: 1 <= k < attempts ==> IsRetryable(server(k))
    ensures attempts < MAX_ATTEMPTS ==> !IsRetryable(answer)
    ensures forall k: nat :: 1 <= k < attempts ==> Transient(server(k))
    ensures (forall k: nat :: 1 <= k <= 3 ==> Transient(server(k))) ==> attempts == 4
    ensures !Transient(answer) || attempts == 4
    ensures limiter.Total() == old(limiter.Total()) + attempts
    ensures old(clock.now) + Backoff(server, attempts) <= clock.now
  {
    hide Limiter.Worth, Limiter.After, Limiter.Granted, Limiter.Grants, Limiter.Earned, Limiter.Ordered;
    attempts := 0;
    while true
      invariant limiter.Valid() && limiter.updatedAt <= clock.now
      invariant attempts < MAX_ATTEMPTS
      invariant forall k: nat :: 1 <= k <= attempts ==> IsRetryable(server(k))
      invariant limiter.Total() == old(limiter.Total()) + attempts
      invariant old(clock.now) + Backoff(server, attempts + 1) <= clock.now
      decreases MAX_ATTEMPTS - attempts
    {
      limiter.Acquire(clock);
      attempts := attempts + 1;
      answer := server(attempts);
      if !IsRetryable(answer) || attempts == MAX_ATTEMPTS {
        return;
      }
      clock.Sleep(WaitStrategy(answer, attempts));
    }
  }

  // Paginators

  datatype Page<+T> = Page(items: seq<T>, total: Option<nat>, hasNext: bool)

  /** Page `n`, counting from 1; past its last page a server answers with an empty one. */
  function Fetch<T>(server: seq<Page<T>>, n: nat): Page<T> {
    if 1 <= n <= |server| then server[n - 1] else Page([], None, false)
  }

  /** The items of the first `n` pages, in order. */
  function Stream<T>(server: seq<Page<T>>, n: nat): seq<T> {
    if n == 0 then [] else Stream(server, n - 1) + Fetch(server, n).items
  }

  predicate TotalReached<T>(server: seq<Page<T>>, n: nat) {
    var total := Fetch(server, n).total;
    total.Some? && |Stream(server, n)| >= total.value
  }

  /** `n` is the page at which each generator stops. */
  predicate ViewStopsAt<T>(server: seq<Page<T>>, n: nat) {
    && 1 <= n && Fetch(server, n).items == []
    && forall k :: 1 <= k < n ==> Fetch(server, k).items != []
  }

  predicate TotalStopsAt<T>(server: seq<Page<T>>, n: nat) {
    && 1 <= n && (Fetch(server, n).items == [] || TotalReached(server, n))
    && forall k :: 1 <= k < n ==> Fetch(server, k).items != [] && !TotalReached(server, k)
  }

  predicate TimelineStopsAt<T>(server: seq<Page<T>>, n: nat) {
    && 1 <= n && !Fetch(server, n).hasNext
    && forall k :: 1 <= k < n ==> Fetch(server, k).hasNext
  }

  method PaginateView<T>(server: seq<Page<T>>) returns (yielded: seq<T>, pages: nat)
    ensures ViewStopsAt(server, pages) && yielded == Stream(server, pages)
  {
    yielded := [];
    pages := 1;
    while true
      invariant 1 <= pages <= |server| + 1 && yielded == Stream(server, pages - 1)
      invariant forall k :: 1 <= k < pages ==> Fetch(server, k).items != []
      decreases |server| + 1 - pages
    {
      var deals := Fetch(server, pages).items;
      if deals == [] {
        return;
      }
      yielded := yielded + deals;
      pages := pages + 1;
    }
  }

  /** `iter_pipeline_deal_ids` and `iter_sales_activities` share this loop. */
  method PaginateTotal<T>(server: seq<Page<T>>) returns (yielded: seq<T>, pages: nat)
    ensures TotalStopsAt(server, pages) && yielded == Stream(server, pages)
  {
    yielded := [];
    pages := 1;
    var seen := 0;
    while true
      invariant 1 <= pages <= |server| + 1 && yielded == Stream(server, pages - 1)
      invariant seen == |yielded|
      invariant forall k :: 1 <= k < pages ==> Fetch(server, k).items != [] && !TotalReached(server, k)
      decreases |server| + 1 - pages
    {
      var page := Fetch(server, pages);
      if page.items == [] {
        return;
      }
      yielded := yielded + page.items;
      seen := seen + |page.items|;
      if page.total.Some? && seen >= page.total.value {
        return;
      }
      pages := pages + 1;
    }
  }

  method PaginateTimeline<T>(server: seq<Page<T>>) returns (yielded: seq<T>, pages: nat)
    ensures TimelineStopsAt(server, pages) && yielded == Stream(server, pages)
  {
    yielded := [];
    pages := 1;
    while true
      invariant 1 <= pages <= |server| + 1 && yielded == Stream(server, pages - 1)
      invariant forall k :: 1 <= k < pages ==> Fetch(server, k).hasNext
      decreases |server| + 1 - pages
    {
      var page := Fetch(server, pages);
      yielded := yielded + page.items;
      if !page.hasNext {
        return;
      }
      pages := pages + 1;
    }
  }

  /** The server cuts `list` into consecutive non-empty pages. */
  ghost predicate Cuts<T>(server: seq<Page<T>>, list: seq<T>) {
    && Stream(server, |server|) == list
    && forall k :: 1 <= k <= |server| ==> Fetch(server, k).items != []
  }

  lemma {:induction false} StreamGrows<T>(server: seq<Page<T>>, m: nat, n: nat)
    requires m <= n
    ensures Stream(server, m) <= Stream(server, n)
    ensures Stream(server, m) == Stream(server, n) <==> forall k :: m < k <= n ==> Fetch(server, k).items == []
    decreases n
  {
    if m < n {
      StreamGrows(server, m, n - 1);
      if Stream(server, m) == Stream(server, n) {
        assert |Stream(server, n)| == |Stream(server, n - 1)| + |Fetch(server, n).items|;
      }
    }
  }

  /** A view is read in full exactly when nothing follows its first empty page. */
  lemma ViewIsCompleteIff<T>(server: seq<Page<T>>, n: nat)
    requires ViewStopsAt(server, n)
    ensures Stream(server, n) == Stream(server, |server|)
       <==> forall k :: n < k <= |server| ==> Fetch(server, k).items == []
    ensures Cuts(server, Stream(server, |server|)) ==> n == |server| + 1
  {
    if n <= |server| {
      StreamGrows(server, n, |server|);
    } else {
      StreamGrows(server, |server|, n);
    }
  }

  /** Reading by total returns the whole list exactly when no earlier page reports a
      total that has already been seen; with every total right it always does. */
  lemma TotalIsCompleteIff<T>(server: seq<Page<T>>, list: seq<T>, n: nat)
    requires Cuts(server, list) && TotalStopsAt(server, n)
    ensures Stream(server, n) == list <==> forall k :: 1 <= k < |server| ==> !TotalReached(server, k)
    ensures (forall k :: 1 <= k <= |server| ==> Fetch(server, k).total in {None, Some(|list|)}) ==>
              Stream(server, n) == list && |server| <= n <= |server| + 1
  {
    if n < |server| {
      StreamGrows(server, n, |server|);
      assert Fetch(server, n + 1).items != [];
      assert Stream(server, n) != list;
      assert |Stream(server, n)| < |list|;
      assert TotalReached(server, n);
    } else {
      assert n <= |server| + 1 by {
        assert Fetch(server, |server| + 1).items == [];
      }
      StreamGrows(server, |server|, n);
    }
  }

  /** With `has_next` set on every page but the last, the timeline is read in full. */
  lemma TimelineRoundTrip<T>(server: seq<Page<T>>, n: nat)
    requires TimelineStopsAt(server, n)
    requires forall k :: 1 <= k <= |server| ==> (Fetch(server, k).hasNext <==> k < |server|)
    ensures Stream(server, n) == Stream(server, |server|)
    ensures server != [] ==> n == |server|
  {
    if server == [] {
      assert Fetch(server, 1).items == [] && n == 1;
    } else if n < |server| {
      assert false;
    } else {
      assert !Fetch(server, |server|).hasNext;
    }
  }
}
