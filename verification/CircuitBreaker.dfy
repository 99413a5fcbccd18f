/**
 * One circuit breaker. Instants are natural numbers handed to each call; `allow_request` reads the
 * clock twice, once for the timeout and once for the purge.
 */
module CircuitBreaker {
  import opened Wrappers
  import opened Collections

  const TWO32: int := 0x1_0000_0000

  type U32 = n: int | 0 <= n < TWO32

  datatype State = Closed | Open | HalfOpen

  datatype Config = Config(
    failureThreshold: U32,
    successThreshold: U32,
    timeout: nat,
    rollingWindow: nat,
    halfOpenMaxCalls: U32)

  datatype Breaker = Breaker(
    config: Config,
    state: State,
    failureCount: nat,
    successCount: nat,
    lastFailure: Option<nat>,
    halfOpenCalls: nat,
    failureTimes: seq<nat>)

  /** `duration_since`, which is zero when the clock has not advanced. */
  function Elapsed(now: nat, since: nat): (d: nat) {
    if now >= since then now - since else 0
  }

  /** The times inside the window that ends at `now`, in order. */
  function Within(times: seq<nat>, now: nat, window: nat): (r: seq<nat>)
    ensures |r| <= |times|
  {
    if times == [] then []
    else
      var rest := Within(times[1..], now, window);
      if Elapsed(now, times[0]) <= window then [times[0]] + rest else rest
  }

  function New(config: Config): (b: Breaker) {
    Breaker(config, Closed, 0, 0, None, 0, [])
  }

  /** `clean_old_failures`, then the count is taken as a 32-bit number. */
  function Purge(b: Breaker, now: nat): (r: Breaker) {
    var times := Within(b.failureTimes, now, b.config.rollingWindow);
    b.(failureTimes := times, failureCount := |times| % TWO32)
  }

  function UpdateState(b: Breaker, elapsedAt: nat, purgeAt: nat): (r: Breaker) {
    var c := if b.state.Open? && b.lastFailure.Some? && Elapsed(elapsedAt, b.lastFailure.value) >= b.config.timeout
             then b.(state := HalfOpen, successCount := 0, halfOpenCalls := 0) else b;
    Purge(c, purgeAt)
  }

  /** The breaker after a request was asked for, and whether it was let through. */
  function AllowRequest(b: Breaker, elapsedAt: nat, purgeAt: nat): (r: (Breaker, bool)) {
    var c := UpdateState(b, elapsedAt, purgeAt);
    match c.state
    case Closed => (c, true)
    case Open => (c, false)
    case HalfOpen =>
      if c.halfOpenCalls < c.config.halfOpenMaxCalls then (c.(halfOpenCalls := c.halfOpenCalls + 1), true)
      else (c, false)
  }

  function RecordSuccess(b: Breaker): (r: Breaker) {
    match b.state
    case HalfOpen =>
      if b.successCount + 1 >= b.config.successThreshold
      then b.(state := Closed, failureCount := 0, successCount := 0, halfOpenCalls := 0, failureTimes := [])
      else b.(successCount := b.successCount + 1)
    case Closed => if b.failureCount > 0 then b.(failureCount := 0, failureTimes := []) else b
    case Open => b
  }

  function RecordFailure(b: Breaker, now: nat): (r: Breaker) {
    var c := Purge(b.(lastFailure := Some(now), failureTimes := b.failureTimes + [now]), now);
    match c.state
    case Closed => if c.failureCount >= c.config.failureThreshold then c.(state := Open, halfOpenCalls := 0) else c
    case HalfOpen => c.(state := Open, successCount := 0, halfOpenCalls := 0)
    case Open => c
  }

  // ----- Runs

  datatype Event = Allow(elapsedAt: nat, purgeAt: nat) | Success | Failure(at: nat)

  function Step(b: Breaker, e: Event): (r: Breaker) {
    match e
    case Allow(t, u) => AllowRequest(b, t, u).0
    case Success => RecordSuccess(b)
    case Failure(t) => RecordFailure(b, t)
  }

  /** The breaker after a history of calls. */
  function After(config: Config, events: seq<Event>): (b: Breaker)
    decreases |events|
  {
    if events == [] then New(config) else Step(After(config, events[..|events| - 1]), events[|events| - 1])
  }

  /** Whether call `e`, made after `events`, let a request through. */
  predicate Admits(config: Config, events: seq<Event>, e: Event) {
    e.Allow? && AllowRequest(After(config, events), e.elapsedAt, e.purgeAt).1
  }

  function Init(events: seq<Event>): (r: seq<Event>)
    requires events != []
    ensures |r| == |events| - 1
  {
    events[..|events| - 1]
  }

  function Last(events: seq<Event>): (e: Event)
    requires events != []
  {
    events[|events| - 1]
  }

  /** When the clock was last read for a purge. */
  function LatestPurge(events: seq<Event>): (t: nat)
    decreases |events|
  {
    if events == [] then 0
    else match Last(events)
      case Allow(_, u) => u
      case Failure(t) => t
      case Success => LatestPurge(Init(events))
  }

  function LatestFailure(events: seq<Event>): (t: Option<nat>)
    decreases |events|
  {
    if events == [] then None
    else if Last(events).Failure? then Some(Last(events).at)
    else LatestFailure(Init(events))
  }

  /** No reading of the clock is earlier than one before it. */
  predicate Monotone(events: seq<Event>)
    decreases |events|
  {
    events == [] || (Monotone(Init(events)) &&
      match Last(events)
      case Allow(t, u) => LatestPurge(Init(events)) <= t <= u
      case Failure(t) => LatestPurge(Init(events)) <= t
      case Success => true)
  }

  /** The failures reported since the last success that left the breaker closed. */
  function FailuresSinceClear(config: Config, events: seq<Event>): (times: seq<nat>)
    decreases |events|
  {
    if events == [] then []
    else
      var before := FailuresSinceClear(config, Init(events));
      match Last(events)
      case Allow(_, _) => before
      case Failure(t) => before + [t]
      case Success => if After(config, events).state.Closed? then [] else before
  }

  lemma {:induction false} WithinConcat(a: seq<nat>, b: seq<nat>, now: nat, window: nat)
    ensures Within(a + b, now, window) == Within(a, now, window) + Within(b, now, window)
  {
    if a == [] {
      assert a + b == b;
    } else {
      WithinConcat(a[1..], b, now, window);
      assert (a + b)[1..] == a[1..] + b;
      Associates([a[0]], Within(a[1..], now, window), Within(b, now, window));
    }
  }

  /** A later purge sees nothing that an earlier one removed. */
  lemma {:induction false} WithinTwice(times: seq<nat>, earlier: nat, later: nat, window: nat)
    requires earlier <= later
    ensures Within(Within(times, earlier, window), later, window) == Within(times, later, window)
  {
    if times != [] {
      WithinTwice(times[1..], earlier, later, window);
      var rest := Within(times[1..], earlier, window);
      assert ([times[0]] + rest)[1..] == rest;
    }
  }

  /** What every run keeps, on any clock. */
  ghost predicate Good(b: Breaker) {
    && b.failureCount == |b.failureTimes| % TWO32
    && (b.state.Closed? ==> |b.failureTimes| < b.config.failureThreshold || b.failureTimes == [])
    && (!b.state.HalfOpen? ==> b.successCount == 0 && b.halfOpenCalls == 0)
    && (b.state.HalfOpen? ==> b.successCount == 0 || b.successCount < b.config.successThreshold)
    && b.halfOpenCalls <= b.config.halfOpenMaxCalls
    && (b.state.Open? ==> b.lastFailure.Some?)
  }

  lemma StepKeepsGood(b: Breaker, e: Event)
    requires Good(b)
    ensures Good(Step(b, e)) && Step(b, e).config == b.config
  {
  }

  lemma {:induction false} AfterIsGood(config: Config, events: seq<Event>)
    ensures Good(After(config, events)) && After(config, events).config == config
    ensures After(config, events).lastFailure == LatestFailure(events)
    decreases |events|
  {
    if events != [] {
      AfterIsGood(config, Init(events));
      StepKeepsGood(After(config, Init(events)), Last(events));
    }
  }

  /**
   * On every run with a clock that never runs backwards, the breaker remembers exactly the failures
   * since the last clearing success that were inside the rolling window at the latest purge, and
   * its count is their number.
   */
  lemma {:induction false} FailureWindowIsExact(config: Config, events: seq<Event>)
    requires Monotone(events)
    ensures var b := After(config, events);
            && b.failureTimes == Within(FailuresSinceClear(config, events), LatestPurge(events), config.rollingWindow)
            && b.failureCount == |b.failureTimes| % TWO32
            && (b.state.Closed? ==> b.failureCount == |b.failureTimes|)
    decreases |events|
  {
    if events != [] {
      FailureWindowIsExact(config, Init(events));
      AfterIsGood(config, Init(events));
      StepMovesWindow(After(config, Init(events)), Last(events), FailuresSinceClear(config, Init(events)),
        LatestPurge(Init(events)));
      StepKeepsGood(After(config, Init(events)), Last(events));
      if After(config, events).state.Closed? { ClosedCountIsExact(After(config, events)); }
    }
  }

  lemma ClosedCountIsExact(b: Breaker)
    requires Good(b) && b.state.Closed?
    ensures b.failureCount == |b.failureTimes|
  {
  }

  lemma AllowMovesWindow(b: Breaker, e: Event, failures: seq<nat>, purged: nat)
    requires Good(b) && b.failureTimes == Within(failures, purged, b.config.rollingWindow)
    requires e.Allow? && purged <= e.purgeAt
    ensures Step(b, e).failureTimes == Within(failures, e.purgeAt, b.config.rollingWindow)
  {
    WithinTwice(failures, purged, e.purgeAt, b.config.rollingWindow);
  }

  lemma FailureJoinsWindow(failures: seq<nat>, purged: nat, t: nat, w: nat)
    requires purged <= t
    ensures Within(Within(failures, purged, w) + [t], t, w) == Within(failures + [t], t, w)
  {
    WithinConcat(Within(failures, purged, w), [t], t, w);
    WithinTwice(failures, purged, t, w);
    WithinConcat(failures, [t], t, w);
  }

  lemma StepMovesWindow(b: Breaker, e: Event, failures: seq<nat>, purged: nat)
    requires Good(b) && b.failureTimes == Within(failures, purged, b.config.rollingWindow)
    requires e.Allow? ==> purged <= e.purgeAt
    requires e.Failure? ==> purged <= e.at
    ensures var times, w := Step(b, e).failureTimes, b.config.rollingWindow;
            match e
            case Allow(_, u) => times == Within(failures, u, w)
            case Failure(t) => times == Within(failures + [t], t, w)
            case Success => times == if Step(b, e).state.Closed? then [] else b.failureTimes
  {
    match e
    case Allow(_, _) => AllowMovesWindow(b, e, failures, purged);
    case Failure(t) => FailureJoinsWindow(failures, purged, t, b.config.rollingWindow);
    case Success =>
  }

  /**
   * A closed breaker holds fewer failures than the threshold, or none, and it opens exactly on the
   * failure with which the window reaches the threshold.
   */
  lemma OpensExactlyAtThreshold(config: Config, events: seq<Event>, e: Event)
    requires Monotone(events + [e])
    requires After(config, events).state.Closed?
    ensures var failures := FailuresSinceClear(config, events);
            && var held := |Within(failures, LatestPurge(events), config.rollingWindow)|;
            && (held < config.failureThreshold || held == 0)
            && (!After(config, events + [e]).state.Closed? <==>
                 e.Failure? && |Within(failures + [e.at], e.at, config.rollingWindow)| >= config.failureThreshold)
            && !After(config, events + [e]).state.HalfOpen?
  {
    var b := After(config, events);
    assert Init(events + [e]) == events && Last(events + [e]) == e;
    assert After(config, events + [e]) == Step(b, e);
    AfterIsGood(config, events);
    FailureWindowIsExact(config, events);
    StepMovesWindow(b, e, FailuresSinceClear(config, events), LatestPurge(events));
    ClosedStep(b, e);
  }

  lemma ClosedStep(b: Breaker, e: Event)
    requires Good(b) && b.state.Closed?
    ensures var r := Step(b, e);
            && !r.state.HalfOpen?
            && (r.state.Open? <==> e.Failure? && |r.failureTimes| >= b.config.failureThreshold)
  {
  }

  /**
   * While open, a request is let through exactly when `timeout` has passed since the latest failure
   * of the whole history (and half-open calls are allowed at all).
   */
  lemma OpenAdmitsOnlyAfterTimeout(config: Config, events: seq<Event>, e: Event)
    requires After(config, events).state.Open? && e.Allow?
    ensures LatestFailure(events).Some?
    ensures var waited := Elapsed(e.elapsedAt, LatestFailure(events).value) >= config.timeout;
            && (Admits(config, events, e) <==> waited && config.halfOpenMaxCalls > 0)
            && (After(config, events + [e]).state == if waited then HalfOpen else Open)
  {
    AfterIsGood(config, events);
    assert Init(events + [e]) == events && Last(events + [e]) == e;
  }

  // ----- Half-open episodes

  /** The index of the call that began the half-open episode still under way. */
  ghost function EpisodeStart(config: Config, events: seq<Event>): (k: nat)
    requires After(config, events).state.HalfOpen?
    ensures k < |events|
    decreases |events|
  {
    if After(config, Init(events)).state.HalfOpen? then EpisodeStart(config, Init(events)) else |events| - 1
  }

  /** How many requests calls `from` and later let through. */
  ghost function AdmittedSince(config: Config, events: seq<Event>, from: nat): (n: nat)
    decreases |events|
  {
    if |events| <= from then 0
    else AdmittedSince(config, Init(events), from) + (if Admits(config, Init(events), Last(events)) then 1 else 0)
  }

  ghost function SuccessesSince(events: seq<Event>, from: nat): (n: nat)
    decreases |events|
  {
    if |events| <= from then 0
    else SuccessesSince(Init(events), from) + (if Last(events).Success? then 1 else 0)
  }

  /** How a call leaves the breaker half-open. */
  lemma HalfOpenStep(b: Breaker, e: Event)
    requires Good(b) && Step(b, e).state.HalfOpen?
    ensures Step(b, e).halfOpenCalls <= b.config.halfOpenMaxCalls
    ensures var r := Step(b, e);
            var admitted := if e.Allow? && AllowRequest(b, e.elapsedAt, e.purgeAt).1 then 1 else 0;
            if b.state.HalfOpen? then
              && !e.Failure? && r.halfOpenCalls == b.halfOpenCalls + admitted
              && r.successCount == b.successCount + (if e.Success? then 1 else 0)
            else b.state.Open? && e.Allow? && r.halfOpenCalls == admitted && r.successCount == 0
  {
  }

  lemma {:induction false} EpisodeCounts(config: Config, events: seq<Event>)
    requires After(config, events).state.HalfOpen?
    ensures AdmittedSince(config, events, EpisodeStart(config, events)) == After(config, events).halfOpenCalls
    ensures SuccessesSince(events, EpisodeStart(config, events)) == After(config, events).successCount
    decreases |events|
  {
    var init, start := Init(events), EpisodeStart(config, events);
    AfterIsGood(config, init);
    HalfOpenStep(After(config, init), Last(events));
    if After(config, init).state.HalfOpen? {
      EpisodeCounts(config, init);
    } else {
      assert AdmittedSince(config, init, start) == 0 && SuccessesSince(init, start) == 0;
    }
  }

  /** The breaker was half-open after call `k`, and that call did not report a failure. */
  ghost predicate Testing(config: Config, events: seq<Event>, k: nat)
    requires k < |events|
  {
    !events[k].Failure? && After(config, events[..k + 1]).state.HalfOpen?
  }

  lemma LastWasNoFailure(config: Config, events: seq<Event>)
    requires After(config, events).state.HalfOpen?
    ensures events != [] && !Last(events).Failure?
  {
    AfterIsGood(config, Init(events));
    HalfOpenStep(After(config, Init(events)), Last(events));
  }

  lemma {:induction false} EpisodeIsUnbroken(config: Config, events: seq<Event>, k: nat)
    requires After(config, events).state.HalfOpen?
    requires EpisodeStart(config, events) <= k < |events|
    ensures Testing(config, events, k)
    decreases |events|
  {
    var init := Init(events);
    assert events[..k + 1] == if k < |init| then init[..k + 1] else events;
    if k < |init| {
      EpisodeIsUnbroken(config, init, k);
    } else {
      LastWasNoFailure(config, events);
    }
  }

  lemma {:induction false} EpisodeBeginsFromOpen(config: Config, events: seq<Event>)
    requires After(config, events).state.HalfOpen?
    ensures var start := EpisodeStart(config, events);
            events[start].Allow? && After(config, events[..start]).state.Open?
    decreases |events|
  {
    var init := Init(events);
    AfterIsGood(config, init);
    HalfOpenStep(After(config, init), Last(events));
    if After(config, init).state.HalfOpen? {
      EpisodeBeginsFromOpen(config, init);
      assert events[..EpisodeStart(config, init)] == init[..EpisodeStart(config, init)];
    }
  }

  /**
   * Every half-open episode began with a request asked of an open breaker, has seen no failure, has
   * let through at most `half_open_max_calls` requests and has seen fewer successes than would
   * close the breaker.
   */
  lemma HalfOpenEpisode(config: Config, events: seq<Event>)
    requires After(config, events).state.HalfOpen?
    ensures var start := EpisodeStart(config, events);
            && events[start].Allow? && After(config, events[..start]).state.Open?
            && (forall k :: start <= k < |events| ==> Testing(config, events, k))
            && AdmittedSince(config, events, start) <= config.halfOpenMaxCalls
            && (SuccessesSince(events, start) == 0 || SuccessesSince(events, start) < config.successThreshold)
  {
    AfterIsGood(config, events);
    EpisodeBeginsFromOpen(config, events);
    EpisodeCounts(config, events);
    forall k | EpisodeStart(config, events) <= k < |events| ensures Testing(config, events, k) {
      EpisodeIsUnbroken(config, events, k);
    }
  }

  /**
   * A half-open breaker closes exactly on the success that makes `success_threshold` successes since
   * the episode began.
   */
  lemma ClosesExactlyAtSuccessThreshold(config: Config, events: seq<Event>, e: Event)
    requires After(config, events).state.HalfOpen?
    ensures After(config, events + [e]).state.Closed? <==>
            e.Success? && SuccessesSince(events, EpisodeStart(config, events)) + 1 >= config.successThreshold
    ensures After(config, events + [e]).state.Open? <==> e.Failure?
  {
    AfterIsGood(config, events);
    EpisodeCounts(config, events);
    assert Init(events + [e]) == events && Last(events + [e]) == e;
  }

  /** The object. Its methods do what the functions above say. */
  class Guard {
    const config: Config
    var state: State
    var failureCount: nat
    var successCount: nat
    var lastFailure: Option<nat>
    var halfOpenCalls: nat
    var failureTimes: seq<nat>

    ghost function View(): (b: Breaker)
      reads this
    {
      Breaker(config, state, failureCount, successCount, lastFailure, halfOpenCalls, failureTimes)
    }

    constructor (config: Config)
      ensures View() == New(config) && Good(View())
    {
      this.config := config;
      state, failureCount, successCount, lastFailure, halfOpenCalls, failureTimes := Closed, 0, 0, None, 0, [];
    }

    method CleanOldFailures(now: nat)
      modifies this`failureTimes
      ensures failureTimes == Within(old(failureTimes), now, config.rollingWindow)
    {
      failureTimes := Within(failureTimes, now, config.rollingWindow);
    }

    method Update(elapsedAt: nat, purgeAt: nat)
      modifies this
      ensures View() == UpdateState(old(View()), elapsedAt, purgeAt)
    {
      if state == Open {
        if lastFailure.Some? && Elapsed(elapsedAt, lastFailure.value) >= config.timeout {
          state := HalfOpen;
          successCount := 0;
          halfOpenCalls := 0;
        }
      }
      CleanOldFailures(purgeAt);
      failureCount := |failureTimes| % TWO32;
    }

    method Allow(elapsedAt: nat, purgeAt: nat) returns (allowed: bool)
      requires Good(View())
      modifies this
      ensures (View(), allowed) == AllowRequest(old(View()), elapsedAt, purgeAt)
      ensures Good(View())
      ensures old(state) == Open && allowed ==>
                old(lastFailure).Some? && Elapsed(elapsedAt, old(lastFailure).value) >= config.timeout
      ensures state == HalfOpen && allowed ==> halfOpenCalls <= config.halfOpenMaxCalls < TWO32
    {
      StepKeepsGood(View(), Event.Allow(elapsedAt, purgeAt));
      Update(elapsedAt, purgeAt);
      match state
      case Closed => allowed := true;
      case Open => allowed := false;
      case HalfOpen =>
        if halfOpenCalls < config.halfOpenMaxCalls {
          halfOpenCalls := halfOpenCalls + 1;
          allowed := true;
        } else {
          allowed := false;
        }
    }

    method Succeed()
      requires Good(View())
      modifies this
      ensures View() == RecordSuccess(old(View())) && Good(View())
      ensures old(state) != Open && state == Closed ==> failureTimes == [] && failureCount == 0
      ensures successCount < TWO32
    {
      StepKeepsGood(View(), Event.Success);
      match state
      case HalfOpen =>
        successCount := successCount + 1;
        if successCount >= config.successThreshold {
          state := Closed;
          ResetCounts();
        }
      case Closed =>
        if failureCount > 0 {
          failureCount := 0;
          failureTimes := [];
        }
      case Open =>
    }

    method ResetCounts()
      modifies this`failureCount, this`successCount, this`halfOpenCalls, this`failureTimes
      ensures failureCount == 0 && successCount == 0 && halfOpenCalls == 0 && failureTimes == []
    {
      failureCount := 0;
      successCount := 0;
      halfOpenCalls := 0;
      failureTimes := [];
    }

    method Fail(now: nat)
      requires Good(View())
      modifies this
      ensures View() == RecordFailure(old(View()), now) && Good(View())
      ensures lastFailure == Some(now) && state != HalfOpen
      ensures old(state) == Closed && state == Closed ==> failureCount < config.failureThreshold
    {
      StepKeepsGood(View(), Failure(now));
      lastFailure := Some(now);
      failureTimes := failureTimes + [now];
      CleanOldFailures(now);
      failureCount := |failureTimes| % TWO32;
      match state
      case Closed =>
        if failureCount >= config.failureThreshold {
          state := Open;
          halfOpenCalls := 0;
        }
      case HalfOpen =>
        state := Open;
        successCount := 0;
        halfOpenCalls := 0;
      case Open =>
    }
  }
}
