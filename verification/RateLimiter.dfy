/**
 The shared request limiter of the REST client and the retry loop around it.

 The clock is monotone and a sleep never ends early; apart from that time passes as it likes.
 */
module RateLimiter {
  import opened Numbers
  import opened Wrappers

  const MINUTE := 60.0

  /**
   `time.monotonic` and `time.sleep`. `lag(n)` is the time that operation number `n` takes beyond
   what was asked; a negative lag counts as none.
   */
  class Clock {
    const lag: nat -> real
    var now: real
    var operations: nat

    constructor (now: real, lag: nat -> real)
      ensures this.now == now && this.lag == lag
    {
      this.now, this.lag, operations := now, lag, 0;
    }

    /** Nothing takes longer than asked. */
    ghost predicate Exact() {
      forall n :: lag(n) <= 0.0
    }

    method Monotonic() returns (t: real)
      modifies this
      ensures old(now) <= t == now
      ensures Exact() ==> now == old(now)
    {
      Sleep(0.0);
      t := now;
    }

    method Sleep(seconds: real)
      requires seconds >= 0.0
      modifies this
      ensures old(now) + seconds <= now
      ensures Exact() ==> now == old(now) + seconds
    {
      var late := lag(operations);
      now := now + seconds + if late > 0.0 then late else 0.0;
      operations := operations + 1;
    }
  }

  // ------------------------------------------------------------ spacing and windows

  /** Each grant is at least an interval after the one before. */
  ghost predicate Spaced(grants: seq<real>, interval: real) {
    |grants| > 1 ==>
      && Spaced(grants[..|grants| - 1], interval)
      && grants[|grants| - 2] + interval <= grants[|grants| - 1]
  }

  /** The grants of one half-open minute. */
  ghost function Window(grants: seq<real>, from: real): set<int> {
    set i | 0 <= i < |grants| && from <= grants[i] < from + 60.0
  }

  lemma IntervalsFillAMinute(callsPerMinute: nat)
    requires callsPerMinute > 0
    ensures MINUTE / callsPerMinute as real > 0.0
    ensures callsPerMinute as real * (MINUTE / callsPerMinute as real) == MINUTE
  {
    var c := callsPerMinute as real;
    assert c > 0.0 && (MINUTE / c) * c == MINUTE;
  }

  lemma {:induction false} SpacedNext(grants: seq<real>, interval: real, i: nat)
    requires Spaced(grants, interval) && i + 1 < |grants|
    ensures grants[i] + interval <= grants[i + 1]
  {
    if i + 2 < |grants| {
      SpacedNext(grants[..|grants| - 1], interval, i);
    }
  }

  lemma {:induction false} SpacedApart(grants: seq<real>, interval: real, i: nat, j: nat)
    requires Spaced(grants, interval) && i <= j < |grants|
    ensures grants[i] + (j - i) as real * interval <= grants[j]
    decreases j
  {
    if i < j {
      SpacedApart(grants, interval, i, j - 1);
      SpacedNext(grants, interval, j - 1);
      assert (j - i) as real * interval == (j - 1 - i) as real * interval + interval;
    }
  }

  /** The first grant at or after a time. */
  ghost function FirstFrom(grants: seq<real>, from: real): (r: nat)
    ensures r <= |grants|
    ensures forall i :: 0 <= i < r ==> grants[i] < from
    ensures r < |grants| ==> from <= grants[r]
  {
    if grants == [] then 0
    else
      var r := FirstFrom(grants[..|grants| - 1], from);
      if r == |grants| - 1 && grants[r] < from then |grants| else r
  }

  /** The quota: no half-open minute, wherever it starts, holds more grants than allowed. */
  lemma MinuteHoldsAtMost(grants: seq<real>, callsPerMinute: nat, from: real)
    requires callsPerMinute > 0 && Spaced(grants, MINUTE / callsPerMinute as real)
    ensures |Window(grants, from)| <= callsPerMinute
  {
    var interval, first := MINUTE / callsPerMinute as real, FirstFrom(grants, from);
    IntervalsFillAMinute(callsPerMinute);
    SpanIs(first, callsPerMinute);
    forall i | i in Window(grants, from) ensures i in Span(first, callsPerMinute) {
      if first + callsPerMinute <= i {
        AMinuteLater(grants, callsPerMinute, first, i);
        assert false;
      }
    }
    SubsetSize(Window(grants, from), Span(first, callsPerMinute));
  }

  lemma Multiple(n: int, interval: real)
    requires n >= 0 && interval >= 0.0
    ensures n as real * interval >= 0.0
  {
  }

  lemma AMinuteLater(grants: seq<real>, callsPerMinute: nat, first: nat, i: nat)
    requires callsPerMinute > 0 && Spaced(grants, MINUTE / callsPerMinute as real)
    requires first + callsPerMinute <= i < |grants|
    ensures grants[first] + MINUTE <= grants[i]
  {
    IntervalsFillAMinute(callsPerMinute);
    IntervalsLater(grants, MINUTE / callsPerMinute as real, callsPerMinute, first, i);
  }

  lemma IntervalsLater(grants: seq<real>, interval: real, n: nat, first: nat, i: nat)
    requires interval > 0.0 && n as real * interval == MINUTE && Spaced(grants, interval)
    requires first + n <= i < |grants|
    ensures grants[first] + MINUTE <= grants[i]
  {
    SpacedBy(grants, interval, first, n);
    SpacedAscends(grants, interval, first + n, i);
  }

  lemma SpacedBy(grants: seq<real>, interval: real, i: nat, n: nat)
    requires Spaced(grants, interval) && i + n < |grants|
    ensures grants[i] + n as real * interval <= grants[i + n]
  {
    SpacedApart(grants, interval, i, i + n);
    assert i + n - i == n;
  }

  lemma {:induction false} SpacedAscends(grants: seq<real>, interval: real, i: nat, j: nat)
    requires interval > 0.0 && Spaced(grants, interval) && i <= j < |grants|
    ensures grants[i] <= grants[j]
    decreases j
  {
    if i < j {
      SpacedAscends(grants, interval, i, j - 1);
      SpacedNext(grants, interval, j - 1);
    }
  }

  /** Grants at exact distances from a start. */
  ghost predicate Even(grants: seq<real>, start: real, interval: real) {
    forall i :: 0 <= i < |grants| ==> grants[i] == start + i as real * interval
  }

  lemma OneMoreEven(grants: seq<real>, start: real, interval: real, next: real)
    requires Even(grants, start, interval)
    requires next == if grants == [] then start else grants[|grants| - 1] + interval
    ensures Even(grants + [next], start, interval)
  {
    var k := |grants|;
    assert k > 0 ==> k as real * interval == (k - 1) as real * interval + interval;
  }

  lemma EvenGrantsAreEarly(grants: seq<real>, start: real, interval: real, n: nat, i: nat)
    requires interval > 0.0 && n as real * interval == MINUTE && Even(grants, start, interval)
    requires i < n < |grants|
    ensures start <= grants[i] < start + MINUTE
  {
    Multiples(i, n, interval, grants[i] - start, grants[n] - start);
    Multiple(i, interval);
  }

  /** Evenly spaced grants fill the minute they start, and the next one comes as it ends. */
  lemma EvenGrantsFillAMinute(callsPerMinute: nat, start: real, grants: seq<real>)
    requires callsPerMinute > 0 && |grants| == callsPerMinute + 1
    requires Even(grants, start, MINUTE / callsPerMinute as real)
    ensures |Window(grants, start)| == callsPerMinute && grants[callsPerMinute] == start + MINUTE
  {
    IntervalsFillAMinute(callsPerMinute);
    IntervalsFill(grants, start, MINUTE / callsPerMinute as real, callsPerMinute);
  }

  lemma IntervalsFill(grants: seq<real>, start: real, interval: real, n: nat)
    requires interval > 0.0 && n as real * interval == MINUTE && Even(grants, start, interval) && |grants| == n + 1
    ensures |Window(grants, start)| == n && grants[n] == start + MINUTE
  {
    SpanIs(0, n);
    assert grants[n] == start + n as real * interval;
    forall i | 0 <= i < n ensures start <= grants[i] < start + MINUTE {
      EvenGrantsAreEarly(grants, start, interval, n, i);
    }
    assert Window(grants, start) == Span(0, n);
  }

  lemma Multiples(i: int, j: int, interval: real, a: real, b: real)
    requires 0 <= i < j && interval > 0.0
    requires a == i as real * interval && b == j as real * interval
    ensures a + interval <= b
  {
    var x, y := i as real, (j - i) as real;
    assert b == (x + y) * interval == x * interval + y * interval;
    assert y >= 1.0 && y * interval >= interval;
  }

  // ------------------------------------------------------------ the limiter

  class MassiveRateLimiter {
    const callsPerMinute: nat
    const minimumInterval: real
    var nextRequestAt: real
    ghost var grants: seq<real>   // when `Wait` returned, over the whole life of the limiter

    ghost predicate Valid()
      reads this
    {
      && callsPerMinute > 0 && minimumInterval == MINUTE / callsPerMinute as real
      && Spaced(grants, minimumInterval)
      && nextRequestAt == if grants == [] then 0.0 else grants[|grants| - 1] + minimumInterval
    }

    constructor (callsPerMinute: nat)
      requires callsPerMinute > 0
      ensures Valid() && grants == [] && this.callsPerMinute == callsPerMinute
    {
      this.callsPerMinute := callsPerMinute;
      this.minimumInterval := MINUTE / callsPerMinute as real;
      nextRequestAt, grants := 0.0, [];
    }

    /** `null` stands for the `ValueError`. */
    static method Create(callsPerMinute: int) returns (limiter: MassiveRateLimiter?)
      ensures limiter == null <==> callsPerMinute <= 0
      ensures limiter != null ==>
                fresh(limiter) && limiter.Valid() && limiter.grants == [] && limiter.callsPerMinute == callsPerMinute
    {
      limiter := null;
      if callsPerMinute > 0 {
        limiter := new MassiveRateLimiter(callsPerMinute);
      }
    }

    /** `wait`: one more grant, not before its time, and no sleep is asked for beyond that time. */
    method Wait(clock: Clock) returns (delay: real)
      requires Valid()
      modifies clock, this`nextRequestAt, this`grants
      ensures Valid()
      ensures grants == old(grants) + [clock.now]
      ensures old(clock.now) <= clock.now && old(nextRequestAt) <= clock.now
      ensures delay > 0.0 ==> old(clock.now) + delay <= old(nextRequestAt)
      ensures clock.Exact() ==>
                clock.now == if old(clock.now) < old(nextRequestAt) then old(nextRequestAt) else old(clock.now)
    {
      IntervalsFillAMinute(callsPerMinute);
      var now := clock.Monotonic();
      delay := nextRequestAt - now;
      if delay > 0.0 {
        clock.Sleep(delay);
        now := clock.Monotonic();
      }
      nextRequestAt := now + minimumInterval;
      ghost var before := grants;
      grants := grants + [now];
      assert grants[..|before|] == before;
    }
  }

  /** The quota can be used up: on an exact clock, back-to-back waits fill their first minute. */
  method FillMinute(callsPerMinute: nat, start: real) returns (limiter: MassiveRateLimiter)
    requires callsPerMinute > 0 && start >= 0.0
    ensures limiter.Valid() && limiter.callsPerMinute == callsPerMinute && |limiter.grants| == callsPerMinute + 1
    ensures |Window(limiter.grants, start)| == callsPerMinute && limiter.grants[callsPerMinute] == start + MINUTE
  {
    var clock := new Clock(start, n => 0.0);
    limiter := new MassiveRateLimiter(callsPerMinute);
    ghost var interval := MINUTE / callsPerMinute as real;
    for k := 0 to callsPerMinute + 1
      invariant fresh(limiter) && fresh(clock) && limiter.Valid() && clock.Exact()
      invariant limiter.callsPerMinute == callsPerMinute && |limiter.grants| == k
      invariant clock.now == if k == 0 then start else limiter.grants[k - 1]
      invariant Even(limiter.grants, start, interval)
    {
      IntervalsFillAMinute(callsPerMinute);
      OneMoreEven(limiter.grants, start, interval, if k == 0 then start else limiter.grants[k - 1] + interval);
      var delay := limiter.Wait(clock);
    }
    EvenGrantsFillAMinute(callsPerMinute, start, limiter.grants);
  }

  // ------------------------------------------------------------ the retry loop

  datatype RetryAfter = Absent | Seconds(value: real) | Unparseable

  datatype Body = JsonObject(text: string) | OtherJson | NotJson

  /** What one HTTP attempt meets; `Lost` is a timeout or connection error. */
  datatype Reply = Lost | Response(status: int, retryAfter: RetryAfter, body: Body)

  datatype FetchError =
    | ConnectionFailed
    | HttpError(status: int)
    | NotAnObject
    | InvalidJson
    | InvalidRetryAfter
    | LoopExited

  predicate Retryable(status: int) {
    status in {429, 500, 502, 503, 504}
  }

  /** `raise_for_status`. */
  predicate RaisesForStatus(status: int) {
    400 <= status < 600
  }

  function Backoff(attempt: nat): real {
    (if Power2(attempt) < 30 then Power2(attempt) else 30) as real
  }

  /** Another attempt follows this reply, if one is left. */
  predicate Retried(reply: Reply) {
    reply.Lost? || (Retryable(reply.status) && !reply.retryAfter.Unparseable?)
  }

  /** The pause before that attempt. */
  function Pause(reply: Reply, attempt: nat): real {
    if reply.Response? && reply.retryAfter.Seconds? then
      if reply.retryAfter.value > 0.0 then reply.retryAfter.value else 0.0
    else Backoff(attempt)
  }

  function BodyOf(body: Body): Result<string, FetchError> {
    match body
    case JsonObject(text) => Ok(text)
    case OtherJson => Err(NotAnObject)
    case NotJson => Err(InvalidJson)
  }

  /** What a call returns whose last attempt met this reply; `spent` when no attempt was left. */
  function Verdict(reply: Reply, spent: bool): Result<string, FetchError> {
    match reply
    case Lost => Err(ConnectionFailed)
    case Response(status, _, body) =>
      if Retryable(status) && !spent then Err(InvalidRetryAfter)
      else if RaisesForStatus(status) then Err(HttpError(status))
      else BodyOf(body)
  }

  // ------------------------------------------------------------ what a call answers, code by code

  /** Too many requests, or a fault of the server that may pass. */
  predicate IsTransient(reply: Reply) {
    reply.Response? && (reply.status == 429 || reply.status == 500 || 502 <= reply.status <= 504)
  }

  predicate IsFailure(reply: Reply) {
    reply.Response? && 400 <= reply.status <= 599
  }

  /** No answer, or a transient fault whose `Retry-After` is absent or a number. */
  predicate IsRetried(reply: Reply) {
    reply == Lost || (IsTransient(reply) && reply.retryAfter != Unparseable)
  }

  /** The result `r` says what the last reply was. */
  ghost predicate ToldBy(r: Result<string, FetchError>, reply: Reply, spent: bool) {
    var refused := IsTransient(reply) && !spent;
    && (r == Err(ConnectionFailed) <==> reply == Lost)
    && (r == Err(InvalidRetryAfter) <==> refused)
    && (forall s :: r == Err(HttpError(s)) <==> IsFailure(reply) && reply.status == s && !refused)
    && (r == Err(NotAnObject) <==> reply.Response? && !IsFailure(reply) && reply.body == OtherJson)
    && (r == Err(InvalidJson) <==> reply.Response? && !IsFailure(reply) && reply.body == NotJson)
    && (forall text :: r == Ok(text) <==> reply.Response? && !IsFailure(reply) && reply.body == JsonObject(text))
  }

  /** Seconds between attempt `k` and the next: 1, 2, 4, 8, 16, then 30 each time, unless the server names a time. */
  predicate IsPause(delay: real, reply: Reply, k: nat) {
    if reply.Response? && reply.retryAfter.Seconds? then
      delay >= 0.0 && delay >= reply.retryAfter.value && (delay == 0.0 || delay == reply.retryAfter.value)
    else if k < 5 then delay == [1.0, 2.0, 4.0, 8.0, 16.0][k]
    else delay == 30.0
  }

  lemma RetriedIff(reply: Reply)
    ensures Retried(reply) <==> IsRetried(reply)
  {
  }

  lemma VerdictTells(reply: Reply, spent: bool)
    ensures ToldBy(Verdict(reply, spent), reply, spent)
  {
  }

  lemma PauseIs(reply: Reply, k: nat)
    ensures IsPause(Pause(reply, k), reply, k)
  {
    assert Power2(0) == 1 && Power2(1) == 2 && Power2(2) == 4 && Power2(3) == 8 && Power2(4) == 16;
    if k >= 5 {
      Power2Monotone(5, k);
      assert Power2(5) == 2 * Power2(4);
    }
  }

  /** Each attempt but the first comes after the pause that the reply before it calls for. */
  ghost predicate Paced(granted: seq<real>, server: nat -> Reply) {
    forall k :: 0 <= k < |granted| - 1 ==> PacedAt(granted, server(k), k)
  }

  ghost predicate PacedAt(granted: seq<real>, reply: Reply, k: nat) {
    k + 1 < |granted| && exists delay :: IsPause(delay, reply, k) && granted[k] + delay <= granted[k + 1]
  }

  lemma {:induction false} RecordedIsPaced(before: seq<real>, grants: seq<real>, granted: seq<real>,
                                           others: nat -> nat, server: nat -> Reply, n: nat)
    requires Recorded(before, grants, granted, others, server, n)
    ensures |granted| == n && Paced(granted, server)
  {
    if n > 1 {
      var m := |grants| - others(n - 1) - 1;
      RecordedIsPaced(before, grants[..m], granted[..n - 1], others, server, n - 1);
      PauseIs(server(n - 2), n - 2);
      forall k | 0 <= k < n - 1 ensures PacedAt(granted, server(k), k) {
        if k < n - 2 {
          assert PacedAt(granted[..n - 1], server(k), k);
        }
      }
    }
  }

  /** The call made `attempts` attempts, stopped where it should, and answers by its last reply. */
  ghost predicate Follows(r: Result<string, FetchError>, server: nat -> Reply, attempts: nat, maxRetries: int) {
    && 0 < attempts <= maxRetries + 1
    && (forall k :: 0 <= k < attempts - 1 ==> IsRetried(server(k)))
    && (attempts < maxRetries + 1 ==> !IsRetried(server(attempts - 1)))
    && ToldBy(r, server(attempts - 1), attempts == maxRetries + 1)
  }

  lemma AnswersFollow(r: Result<string, FetchError>, server: nat -> Reply, attempts: nat, maxRetries: int)
    requires Answers(r, server, attempts, maxRetries)
    ensures Follows(r, server, attempts, maxRetries)
  {
    VerdictTells(server(attempts - 1), attempts == maxRetries + 1);
    RetriedIff(server(attempts - 1));
    forall k | 0 <= k < attempts - 1 ensures IsRetried(server(k)) {
      RetriedIff(server(k));
    }
  }

  /** The pause after a reply that is worth another attempt; false for an unusable `Retry-After`. */
  method Rest(clock: Clock, reply: Reply, attempt: nat) returns (ok: bool)
    requires reply.Lost? || Retryable(reply.status)
    modifies clock
    ensures ok <==> Retried(reply)
    ensures ok ==> old(clock.now) + Pause(reply, attempt) <= clock.now
    ensures ok && clock.Exact() ==> clock.now == old(clock.now) + Pause(reply, attempt)
    ensures !ok ==> clock.now == old(clock.now)
  {
    var delay := Backoff(attempt);
    if reply.Response? {
      match reply.retryAfter {
        case Absent =>
        case Seconds(value) => delay := if value > 0.0 then value else 0.0;
        case Unparseable => return false;
      }
    }
    clock.Sleep(delay);
    return true;
  }

  /** Other callers of the shared limiter wait first. */
  method Queue(clock: Clock, limiter: MassiveRateLimiter, ahead: nat)
    requires limiter.Valid()
    modifies clock, limiter
    ensures limiter.Valid() && old(limiter.grants) <= limiter.grants
    ensures |limiter.grants| == |old(limiter.grants)| + ahead && old(clock.now) <= clock.now
  {
    for k := 0 to ahead
      invariant limiter.Valid() && old(limiter.grants) <= limiter.grants
      invariant |limiter.grants| == |old(limiter.grants)| + k && old(clock.now) <= clock.now
    {
      var delay := limiter.Wait(clock);
    }
  }

  /** One turn of the loop of `get_json`: a grant, a request, and a result or a pause. */
  method Attempt(clock: Clock, limiter: MassiveRateLimiter, ahead: nat, reply: Reply, attempt: nat, last: bool)
    returns (r: Option<Result<string, FetchError>>, ghost granted: real)
    requires limiter.Valid()
    modifies clock, limiter
    ensures limiter.Valid() && old(limiter.grants) <= limiter.grants
    ensures |limiter.grants| == |old(limiter.grants)| + ahead + 1 && limiter.grants[|limiter.grants| - 1] == granted
    ensures old(clock.now) <= granted <= clock.now
    ensures r == if last || !Retried(reply) then Some(Verdict(reply, last)) else None
    ensures r.None? ==> granted + Pause(reply, attempt) <= clock.now
  {
    Queue(clock, limiter, ahead);
    var delay := limiter.Wait(clock);
    granted := clock.now;
    if reply.Response? && !Retryable(reply.status) {
      return Some(if RaisesForStatus(reply.status) then Err(HttpError(reply.status)) else BodyOf(reply.body)), granted;
    }
    if last {
      return Some(if reply.Lost? then Err(ConnectionFailed) else Err(HttpError(reply.status))), granted;
    }
    var ok := Rest(clock, reply, attempt);
    return if ok then None else Some(Err(InvalidRetryAfter)), granted;
  }

  /**
   The grants of a call with `n` attempts: before attempt `k` others take `others(k)` grants, then the
   call takes its own, and the next one comes after the pause.
   */
  ghost predicate Recorded(before: seq<real>, grants: seq<real>, granted: seq<real>,
                           others: nat -> nat, server: nat -> Reply, n: nat)
  {
    if n == 0 then grants == before && granted == []
    else
      var m := |grants| - others(n - 1) - 1;
      && m >= |before| && |granted| == n
      && Recorded(before, grants[..m], granted[..n - 1], others, server, n - 1)
      && granted[n - 1] == grants[|grants| - 1]
      && (n > 1 ==> granted[n - 2] + Pause(server(n - 2), n - 2) <= granted[n - 1])
  }

  lemma {:induction false} RecordedLength(before: seq<real>, grants: seq<real>, granted: seq<real>,
                                          others: nat -> nat, server: nat -> Reply, n: nat)
    requires Recorded(before, grants, granted, others, server, n)
    ensures |granted| == n && |before| <= |grants|
  {
  }

  lemma OneMoreRecorded(before: seq<real>, grants: seq<real>, granted: seq<real>,
                        others: nat -> nat, server: nat -> Reply, n: nat, grants': seq<real>, grant: real)
    requires Recorded(before, grants, granted, others, server, n) && |granted| == n
    requires grants <= grants' && |grants'| == |grants| + others(n) + 1 && grant == grants'[|grants'| - 1]
    requires n > 0 ==> granted[n - 1] + Pause(server(n - 1), n - 1) <= grant
    ensures Recorded(before, grants', granted + [grant], others, server, n + 1)
  {
    RecordedLength(before, grants, granted, others, server, n);
    assert grants'[..|grants|] == grants && (granted + [grant])[..n] == granted;
  }

  /** A call's grants are found among all grants, in order, behind those that were there before it. */
  lemma {:induction false} RecordedPlaces(before: seq<real>, grants: seq<real>, granted: seq<real>,
                                          others: nat -> nat, server: nat -> Reply, n: nat) returns (places: seq<nat>)
    requires Recorded(before, grants, granted, others, server, n)
    ensures before <= grants && |granted| == |places| == n
    ensures forall k :: 0 <= k < n ==> |before| <= places[k] < |grants| && grants[places[k]] == granted[k]
    ensures forall i, j :: 0 <= i < j < n ==> places[i] < places[j]
    ensures n > 0 ==> places[0] == |before| + others(0) && places[n - 1] == |grants| - 1
    ensures forall k :: 0 <= k < n - 1 ==> places[k + 1] == places[k] + others(k + 1) + 1
  {
    if n == 0 {
      places := [];
    } else {
      var m := |grants| - others(n - 1) - 1;
      var earlier := RecordedPlaces(before, grants[..m], granted[..n - 1], others, server, n - 1);
      places := earlier + [|grants| - 1];
    }
  }

  /** What a call with `attempts` attempts returns. */
  ghost predicate Answers(r: Result<string, FetchError>, server: nat -> Reply, attempts: nat, maxRetries: int) {
    && 0 < attempts <= maxRetries + 1 && r == Verdict(server(attempts - 1), attempts == maxRetries + 1)
    && (forall k: nat :: k + 1 < attempts ==> Retried(server(k)))
    && (attempts <= maxRetries ==> !Retried(server(attempts - 1)))
  }

  /**
   `get_json`. It stops at the first reply that is not retried, or when the attempts are used up, and
   answers by that reply; each attempt takes one grant of the shared limiter and each retry waits its
   pause. Before attempt `k` other callers take `others(k)` grants. Without any attempt, for a negative
   `max_retries`, it fails.
   */
  method GetJson(clock: Clock, limiter: MassiveRateLimiter, others: nat -> nat, server: nat -> Reply, maxRetries: int)
    returns (r: Result<string, FetchError>, attempts: nat, ghost granted: seq<real>)
    requires limiter.Valid()
    modifies clock, limiter
    ensures limiter.Valid()
    ensures attempts == 0 <==> maxRetries < 0
    ensures if attempts == 0 then r == Err(LoopExited) else Answers(r, server, attempts, maxRetries)
    ensures Recorded(old(limiter.grants), limiter.grants, granted, others, server, attempts)
    ensures attempts > 0 ==> Follows(r, server, attempts, maxRetries)
    ensures |granted| == attempts && Paced(granted, server)
  {
    ghost var before := limiter.grants;
    var attempt: nat := 0;
    granted := [];
    while attempt <= maxRetries
      invariant limiter.Valid() && (attempt == 0 || attempt <= maxRetries) && |granted| == attempt
      invariant forall k: nat :: k < attempt ==> Retried(server(k))
      invariant Recorded(before, limiter.grants, granted, others, server, attempt)
      invariant attempt > 0 ==> granted[attempt - 1] + Pause(server(attempt - 1), attempt - 1) <= clock.now
      decreases maxRetries - attempt
    {
      ghost var grants := limiter.grants;
      ghost var grant;
      var result;
      result, grant := Attempt(clock, limiter, others(attempt), server(attempt), attempt, attempt == maxRetries);
      OneMoreRecorded(before, grants, granted, others, server, attempt, limiter.grants, grant);
      granted := granted + [grant];
      attempt := attempt + 1;
      RecordedIsPaced(before, limiter.grants, granted, others, server, attempt);
      if result.Some? {
        AnswersFollow(result.value, server, attempt, maxRetries);
        return result.value, attempt, granted;
      }
    }
    return Err(LoopExited), 0, granted;
  }
}
