/**
 The provider HTTP client: a retry loop inside a circuit breaker. The transport and the
 clock are inputs: a `Request` carries what each attempt would meet and when.
 */
module ProviderHttp {
  import opened Prelude

  /** What `Number` and `Date.parse` make of a Retry-After header (section 10.2.3 of RFC 9110). */
  datatype Header = Header(seconds: Option<real>, date: Option<int>)

  /** An answer of the provider, a body over the size limit, a 429 or 5xx status, or an exception. */
  datatype Outcome = Delivered | TooLarge | Unavailable(retryAfter: Option<Header>) | Broken

  datatype Reply = Reply(outcome: Outcome, clock: nat)

  datatype Request = Request(allowlisted: bool, start: nat, replies: seq<Reply>, end: nat)

  datatype Verdict = NotAllowlisted | CircuitOpen | Succeeded | Failed

  datatype Breaker = Breaker(failures: nat, openUntil: nat)

  const THRESHOLD: nat := 5
  const COOL_DOWN_MS: nat := 30_000

  predicate Retryable(reply: Reply) { reply.outcome.Unavailable? || reply.outcome.Broken? }

  /** Attempts beyond the scripted ones break. */
  function ReplyTo(request: Request, attempt: nat): Reply
    requires attempt >= 1
  {
    if attempt <= |request.replies| then request.replies[attempt - 1] else Reply(Broken, request.end)
  }

  function RetryDelayMs(header: Option<Header>, attempt: nat, now: nat): (delay: real)
    requires attempt >= 1
    ensures 0.0 <= delay <= 5000.0
  {
    if header.Some? && header.value.seconds.Some? && header.value.seconds.value >= 0.0 then
      if header.value.seconds.value * 1000.0 < 5000.0 then header.value.seconds.value * 1000.0 else 5000.0
    else if header.Some? && header.value.date.Some? then
      Min(5000, Max(0, header.value.date.value - now)) as real
    else
      Min(5000, 250 * Pow2(attempt - 1)) as real
  }

  /** A Retry-After of seconds, or of a date, is waited out in full up to five seconds and never exceeded. */
  lemma RetryAfterIsHonoured(header: Header, attempt: nat, now: nat)
    requires attempt >= 1
    ensures
      var delay := RetryDelayMs(Some(header), attempt, now);
      && (header.seconds.Some? && header.seconds.value >= 0.0 ==>
            delay <= header.seconds.value * 1000.0 && (delay < 5000.0 ==> delay == header.seconds.value * 1000.0))
      && (!(header.seconds.Some? && header.seconds.value >= 0.0) && header.date.Some? ==>
            && (delay < 5000.0 ==> now as real + delay >= header.date.value as real)
            && (delay > 0.0 ==> now as real + delay <= header.date.value as real))
  {
  }

  /** Without a usable header the pause doubles from a quarter of a second. */
  lemma BackoffDoubles(attempt: nat, now: nat)
    requires attempt >= 1
    ensures RetryDelayMs(None, 1, now) == 250.0
    ensures
      var delay := RetryDelayMs(None, attempt, now);
      RetryDelayMs(None, attempt + 1, now) == if 2.0 * delay < 5000.0 then 2.0 * delay else 5000.0
  {
    assert Pow2(attempt) == 2 * Pow2(attempt - 1);
  }

  /** The pause after a retryable attempt. */
  function Pause(reply: Reply, attempt: nat): (delay: real)
    requires attempt >= 1 && Retryable(reply)
    ensures 0.0 <= delay <= 5000.0
  {
    match reply.outcome
    case Unavailable(header) => RetryDelayMs(header, attempt, reply.clock)
    case Broken => Min(1000, 100 * Pow2(attempt - 1)) as real
  }

  /** 250 ms, doubling up to five seconds. */
  ghost function BackoffMs(attempt: nat): real {
    match attempt
    case 1 => 250.0
    case 2 => 500.0
    case 3 => 1000.0
    case 4 => 2000.0
    case 5 => 4000.0
    case _ => 5000.0
  }

  /** 100 ms, doubling up to one second. */
  ghost function ShortBackoffMs(attempt: nat): real {
    match attempt
    case 1 => 100.0
    case 2 => 200.0
    case 3 => 400.0
    case 4 => 800.0
    case _ => 1000.0
  }

  /** What the client waits after an attempt: as long as the provider asks for, within five seconds, or ever longer. */
  ghost predicate WaitsRightly(reply: Reply, attempt: nat, delay: real) {
    match reply.outcome
    case Unavailable(Some(Header(Some(seconds), date))) =>
      if seconds >= 0.0 then delay == (if 1000.0 * seconds <= 5000.0 then 1000.0 * seconds else 5000.0)
      else if date.None? then delay == BackoffMs(attempt)
      else delay == UntilDate(date.value, reply.clock)
    case Unavailable(Some(Header(None, Some(date)))) => delay == UntilDate(date, reply.clock)
    case Unavailable(_) => delay == BackoffMs(attempt)
    case Broken => delay == ShortBackoffMs(attempt)
    case _ => false
  }

  /** The time left until the date, nothing if it is past, at most five seconds. */
  ghost function UntilDate(date: int, clock: nat): real {
    if date <= clock then 0.0 else if date <= clock + 5000 then (date - clock) as real else 5000.0
  }

  /** The wait after one attempt of a request; an attempt beyond the scripted ones breaks. */
  ghost predicate Waits(request: Request, attempt: nat, delay: real)
    requires attempt >= 1
  {
    if attempt <= |request.replies| then WaitsRightly(request.replies[attempt - 1], attempt, delay) else delay == ShortBackoffMs(attempt)
  }

  lemma BackoffTables(attempt: nat)
    requires attempt >= 1
    ensures Min(5000, 250 * Pow2(attempt - 1)) as real == BackoffMs(attempt)
    ensures Min(1000, 100 * Pow2(attempt - 1)) as real == ShortBackoffMs(attempt)
  {
    assert Pow2(0) == 1 && Pow2(1) == 2 && Pow2(2) == 4;
    assert Pow2(3) == 8 && Pow2(4) == 16;
    assert Pow2(5) == 32;
    if attempt > 6 { Pow2Monotone(5, attempt - 1); }
  }

  lemma PauseIsRight(request: Request, attempt: nat)
    requires attempt >= 1 && Retryable(ReplyTo(request, attempt))
    ensures Waits(request, attempt, Pause(ReplyTo(request, attempt), attempt))
  {
    BackoffTables(attempt);
    hide Pow2, BackoffMs, ShortBackoffMs;
  }

  // ------------------------------------------------------- meaning of one fetch

  /** Some attempt within the budget is answered, and everything before it may be retried. */
  predicate Answered(request: Request, maxAttempts: nat) {
    exists k | 1 <= k <= maxAttempts ::
      ReplyTo(request, k).outcome.Delivered? && forall j | 1 <= j < k :: Retryable(ReplyTo(request, j))
  }

  function Judge(b: Breaker, request: Request, maxAttempts: nat): Verdict {
    if !request.allowlisted then NotAllowlisted
    else if request.start < b.openUntil then CircuitOpen
    else if Answered(request, maxAttempts) then Succeeded
    else Failed
  }

  function Settle(b: Breaker, verdict: Verdict, end: nat): Breaker {
    match verdict
    case NotAllowlisted => b
    case CircuitOpen => b
    case Succeeded => b.(failures := 0)
    case Failed => if b.failures + 1 >= THRESHOLD then Breaker(0, end + COOL_DOWN_MS) else b.(failures := b.failures + 1)
  }

  class ProviderHttpClient {
    var failures: nat
    var circuitOpenUntil: nat
    const maxAttempts: nat

    function State(): Breaker
      reads this
    {
      Breaker(failures, circuitOpenUntil)
    }

    constructor (attempts: nat)
      ensures State() == Breaker(0, 0) && maxAttempts == attempts
    {
      failures, circuitOpenUntil, maxAttempts := 0, 0, attempts;
    }

    method Fetch(request: Request) returns (verdict: Verdict, calls: nat, sleeps: seq<real>)
      modifies this
      ensures verdict == Judge(old(State()), request, maxAttempts)
      ensures State() == Settle(old(State()), verdict, request.end)
      // what is called and how long it is waited for
      ensures verdict.NotAllowlisted? || verdict.CircuitOpen? ==> calls == 0 && sleeps == []
      ensures calls <= maxAttempts && |sleeps| == if calls == 0 then 0 else calls - 1
      ensures forall i | 0 <= i < |sleeps| :: Waits(request, i + 1, sleeps[i])
      // how it ends
      ensures verdict.NotAllowlisted? <==> !request.allowlisted
      ensures verdict.CircuitOpen? <==> request.allowlisted && request.start < old(circuitOpenUntil)
      ensures verdict.Succeeded? ==> 1 <= calls <= |request.replies| && request.replies[calls - 1].outcome.Delivered?
      ensures verdict.Failed? && 1 <= calls <= |request.replies| ==> !request.replies[calls - 1].outcome.Delivered?
      ensures verdict.Failed? && calls < maxAttempts ==> 1 <= calls <= |request.replies| && request.replies[calls - 1].outcome.TooLarge?
      // what it does to the breaker
      ensures !verdict.Failed? ==> circuitOpenUntil == old(circuitOpenUntil) && failures == if verdict.Succeeded? then 0 else old(failures)
      ensures verdict.Failed? && old(failures) < 4 ==> circuitOpenUntil == old(circuitOpenUntil) && failures == old(failures) + 1
      ensures verdict.Failed? && old(failures) >= 4 ==> circuitOpenUntil == request.end + 30_000 && failures == 0
    {
      hide Pause, Waits;
      calls, sleeps := 0, [];
      if !request.allowlisted { return NotAllowlisted, 0, []; }
      if request.start < circuitOpenUntil { return CircuitOpen, 0, []; }
      var attempt := 1;
      while attempt <= maxAttempts
        invariant 1 <= attempt <= maxAttempts + 1 && calls == attempt - 1
        invariant forall k | 1 <= k < attempt :: Retryable(ReplyTo(request, k))
        invariant |sleeps| == if attempt <= maxAttempts then calls else Max(0, calls - 1)
        invariant forall i | 0 <= i < |sleeps| :: Waits(request, i + 1, sleeps[i])
        invariant State() == old(State())
      {
        var reply := ReplyTo(request, attempt);
        calls := calls + 1;
        if reply.outcome.Delivered? {
          failures := 0;
          return Succeeded, calls, sleeps;
        }
        if reply.outcome.TooLarge? { break; }
        PauseIsRight(request, attempt);
        if attempt < maxAttempts { sleeps := sleeps + [Pause(reply, attempt)]; }
        attempt := attempt + 1;
      }
      assert calls >= 1 ==> !ReplyTo(request, calls).outcome.Delivered?;
      verdict := Failed;
      failures := failures + 1;
      if failures >= THRESHOLD { circuitOpenUntil, failures := request.end + COOL_DOWN_MS, 0; }
    }
  }

  // ------------------------------------------------------------------ histories

  /** Fetches one after another, on a clock that does not go back. */
  predicate InOrder(h: seq<Request>) {
    && (forall i | 0 <= i < |h| :: h[i].start <= h[i].end)
    && (forall i, j | 0 <= i < j < |h| :: h[i].end <= h[j].start)
  }

  function After(h: seq<Request>, maxAttempts: nat): Breaker
    decreases |h|, 1
  {
    if h == [] then Breaker(0, 0) else Settle(After(h[..|h| - 1], maxAttempts), Last(h, maxAttempts), h[|h| - 1].end)
  }

  /** The verdict of the last fetch of a history. */
  function Last(h: seq<Request>, maxAttempts: nat): Verdict
    requires h != []
    decreases |h|, 0
  {
    Judge(After(h[..|h| - 1], maxAttempts), h[|h| - 1], maxAttempts)
  }

  function VerdictAt(h: seq<Request>, maxAttempts: nat, i: nat): Verdict
    requires i < |h|
  {
    Last(h[..i + 1], maxAttempts)
  }

  /** How many fetches failed since the last one that succeeded. */
  function FailedRun(h: seq<Request>, maxAttempts: nat): nat {
    if h == [] then 0
    else
      match Last(h, maxAttempts)
      case Succeeded => 0
      case Failed => FailedRun(h[..|h| - 1], maxAttempts) + 1
      case _ => FailedRun(h[..|h| - 1], maxAttempts)
  }

  /** Fetch `i` is a failure that completes a group of five in its run of failures. */
  predicate Trips(h: seq<Request>, maxAttempts: nat, i: nat)
    requires i < |h|
  {
    VerdictAt(h, maxAttempts, i).Failed? && FailedRun(h[..i + 1], maxAttempts) % THRESHOLD == 0
  }

  /** Between fetches the counter is the current run of failures, less the groups of five that tripped the breaker. */
  lemma {:induction false} CounterIsFailedRun(h: seq<Request>, maxAttempts: nat)
    ensures After(h, maxAttempts).failures == FailedRun(h, maxAttempts) % THRESHOLD < THRESHOLD
  {
    if h != [] { CounterIsFailedRun(h[..|h| - 1], maxAttempts); }
  }

  lemma PrefixOf(h: seq<Request>, n: nat, maxAttempts: nat)
    requires n <= |h|
    ensures forall i | 0 <= i < n :: VerdictAt(h[..n], maxAttempts, i) == VerdictAt(h, maxAttempts, i)
    ensures forall i | 0 <= i < n :: Trips(h[..n], maxAttempts, i) == Trips(h, maxAttempts, i)
  {
    forall i | 0 <= i < n
      ensures VerdictAt(h[..n], maxAttempts, i) == VerdictAt(h, maxAttempts, i)
      ensures Trips(h[..n], maxAttempts, i) == Trips(h, maxAttempts, i)
    {
      assert h[..n][..i + 1] == h[..i + 1];
    }
  }

  lemma LastFetchMovesDeadline(h: seq<Request>, maxAttempts: nat)
    requires h != []
    ensures
      var n := |h| - 1;
      After(h, maxAttempts).openUntil == if Trips(h, maxAttempts, n) then h[n].end + COOL_DOWN_MS else After(h[..n], maxAttempts).openUntil
  {
    hide Judge, Answered;
    CounterIsFailedRun(h[..|h| - 1], maxAttempts);
    assert h[..|h|] == h;
  }

  /** The breaker's deadline is the latest trip's end plus the cool-down. */
  lemma {:induction false} DeadlineIsLastTrip(h: seq<Request>, maxAttempts: nat, now: nat)
    requires InOrder(h) && (h == [] || h[|h| - 1].end <= now)
    ensures now < After(h, maxAttempts).openUntil <==>
      exists i | 0 <= i < |h| :: Trips(h, maxAttempts, i) && now < h[i].end + COOL_DOWN_MS
  {
    if h != [] {
      var n := |h| - 1;
      DeadlineIsLastTrip(h[..n], maxAttempts, now);
      PrefixOf(h, n, maxAttempts);
      LastFetchMovesDeadline(h, maxAttempts);
      hide After, Trips;
    }
  }

  /** An allowlisted fetch is refused exactly while some trip's cool-down lasts. */
  lemma RefusedExactlyWhileOpen(h: seq<Request>, maxAttempts: nat, j: nat)
    requires InOrder(h) && j < |h| && h[j].allowlisted
    ensures VerdictAt(h, maxAttempts, j).CircuitOpen? <==>
      exists i | 0 <= i < j :: Trips(h, maxAttempts, i) && h[j].start < h[i].end + COOL_DOWN_MS
  {
    assert h[..j + 1][..j] == h[..j];
    DeadlineIsLastTrip(h[..j], maxAttempts, h[j].start);
    PrefixOf(h, j, maxAttempts);
  }

  function FailuresBetween(h: seq<Request>, maxAttempts: nat, i: nat, j: nat): nat
    requires i <= j <= |h|
  {
    if i == j then 0
    else FailuresBetween(h, maxAttempts, i, j - 1) + if VerdictAt(h, maxAttempts, j - 1).Failed? then 1 else 0
  }

  lemma {:induction false} RunAddsUp(h: seq<Request>, maxAttempts: nat, i: nat, j: nat)
    requires i <= j <= |h|
    requires forall k | i <= k < j :: !VerdictAt(h, maxAttempts, k).Succeeded?
    ensures FailedRun(h[..j], maxAttempts) == FailedRun(h[..i], maxAttempts) + FailuresBetween(h, maxAttempts, i, j)
  {
    if i < j {
      RunAddsUp(h, maxAttempts, i, j - 1);
      assert h[..j][..j - 1] == h[..j - 1];
    }
  }

  /** Failures that carry the counter past four include a trip; five with no success between them always do. */
  lemma {:induction false} TripAmongFailures(h: seq<Request>, maxAttempts: nat, i: nat, j: nat) returns (m: nat)
    requires i <= j <= |h|
    requires FailedRun(h[..i], maxAttempts) % THRESHOLD + FailuresBetween(h, maxAttempts, i, j) >= THRESHOLD
    requires forall k | i <= k < j :: !VerdictAt(h, maxAttempts, k).Succeeded?
    ensures i <= m < j && Trips(h, maxAttempts, m)
  {
    var r := FailedRun(h[..i], maxAttempts);
    if r % THRESHOLD + FailuresBetween(h, maxAttempts, i, j - 1) >= THRESHOLD {
      m := TripAmongFailures(h, maxAttempts, i, j - 1);
    } else {
      m := j - 1;
      RunAddsUp(h, maxAttempts, i, j);
    }
  }

  /** Once five fetches failed with no success between them, every allowlisted fetch is refused for 30 seconds from the first. */
  lemma RefusedAfterFive(h: seq<Request>, maxAttempts: nat, i: nat, j: nat)
    requires InOrder(h) && i <= j < |h| && h[j].start < h[i].start + COOL_DOWN_MS
    requires forall k | i <= k < j :: !VerdictAt(h, maxAttempts, k).Succeeded?
    requires FailuresBetween(h, maxAttempts, i, j) >= THRESHOLD && h[j].allowlisted
    ensures VerdictAt(h, maxAttempts, j).CircuitOpen?
  {
    var m := TripAmongFailures(h, maxAttempts, i, j);
    assert h[i].start <= h[m].end;
    RefusedExactlyWhileOpen(h, maxAttempts, j);
  }

  /** In any 30 seconds without a success at most five fetches fail. */
  lemma {:induction false} FailuresAreThrottled(h: seq<Request>, maxAttempts: nat, i: nat, j: nat)
    requires InOrder(h) && i <= j < |h| && h[j].start < h[i].start + COOL_DOWN_MS
    requires forall k | i <= k < j :: !VerdictAt(h, maxAttempts, k).Succeeded?
    ensures FailuresBetween(h, maxAttempts, i, j + 1) <= THRESHOLD
  {
    if i < j {
      assert h[j - 1].start <= h[j].start;
      FailuresAreThrottled(h, maxAttempts, i, j - 1);
      if FailuresBetween(h, maxAttempts, i, j) == THRESHOLD && h[j].allowlisted { RefusedAfterFive(h, maxAttempts, i, j); }
    }
  }
}
