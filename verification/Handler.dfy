/** The retry and fallback loop of the proxy handler.

    A request's behaviour is the trace of what it does to the outside: tickets asked of and settled
    with the circuit registry, requests sent upstream, and sleeps. Everything it reads along the way
    (circuit admission, load, tickets, upstream outcomes, jitter, durations) is an input that may be
    different at every attempt, so the results hold whatever other requests do meanwhile. */
module Handler {
  import opened Prelude
  import opened Models
  import opened Routing
  import opened CircuitMachine
  import opened CircuitStore
  import opened Tickets
  import CircuitRuns
  import FallbackChain

  const RETRYABLE_STATUS: set<int> := {429, 500, 502, 503, 504}

  datatype Reliability = Reliability(
    backoffBaseMs: real,
    backoffMaxMs: real,
    retryAfterMax: real,
    retryBudget: real)

  /** How forwarding one attempt ended: a response for the client, a retryable HTTP error, a failure to
      reach the upstream, or any other exception. */
  datatype Upstream =
    | Responded(status: int, cacheHit: bool, retryAfter: Option<real>)
    | HttpError(status: int, retryAfter: Option<real>, contextWindow: bool)
    | NetworkError
    | OtherError

  /** What one attempt meets: the circuits and load at selection, the ticket it is given, how long the
      upstream took and how it ended, the circuits at the retry decision and the jitter drawn (any
      number, clamped to the range it is drawn from). */
  datatype Conditions = Conditions(
    selection: Surroundings,
    ticket: Ticket,
    elapsed: real,
    upstream: Upstream,
    allowRetry: Deployment -> bool,
    draw: real)

  ghost predicate Plausible(c: Conditions) {
    c.ticket != NoTicket && c.elapsed >= 0.0
  }

  ghost predicate AllPlausible(env: nat -> Conditions) {
    forall i: nat :: Plausible(env(i))
  }

  // ----- delays ---------------------------------------------------------------------------------

  function RetryBudget(m: Model, rel: Reliability): real {
    if m.timeout > 0.0 then m.timeout else MaxReal(rel.retryBudget, 0.0)
  }

  function BackoffCap(rel: Reliability): real { MaxReal(rel.backoffMaxMs, 0.0) / 1000.0 }

  /** `base` times two to the `n`. */
  function Doubled(base: real, n: nat): (r: real)
    ensures base >= 0.0 ==> r >= base
  {
    if n == 0 then base else 2.0 * Doubled(base, n - 1)
  }

  function BackoffCeiling(rel: Reliability, attempt: nat): real {
    MinReal(BackoffCap(rel), Doubled(MaxReal(rel.backoffBaseMs, 0.0) / 1000.0, if attempt <= 16 then attempt else 16))
  }

  /** "Equal jitter": half the step, and a draw between zero and the other half. */
  function Backoff(rel: Reliability, attempt: nat, draw: real): real {
    var half := BackoffCeiling(rel, attempt) / 2.0;
    half + MinReal(MaxReal(draw, 0.0), half)
  }

  function RetryAfterLimit(rel: Reliability): real { MaxReal(rel.retryAfterMax, 0.0) }

  function LongestDelay(rel: Reliability): real { MaxReal(BackoffCap(rel), RetryAfterLimit(rel)) }

  /** `_retry_delay`: how long to wait before the next attempt, or `None` to give up on the model. */
  function RetryDelay(m: Model, attempt: nat, failed: set<string>, retryAfter: Option<real>,
                      c: Conditions, rel: Reliability): Option<real> {
    var alternatives := Filter(m.deployments,
                               (d: Deployment) => d.baseUrl != "" && d.baseUrl !in failed && c.allowRetry(d));
    var backoff := Backoff(rel, attempt, c.draw);
    if alternatives != [] || retryAfter.None? then Some(backoff)
    else if retryAfter.value > RetryAfterLimit(rel) then None
    else Some(MaxReal(retryAfter.value, backoff))
  }

  /** Some upstream of the model has not failed yet and is admitted. */
  predicate HasAlternative(m: Model, failed: set<string>, c: Conditions) {
    exists d :: d in m.deployments && d.baseUrl != "" && d.baseUrl !in failed && c.allowRetry(d)
  }

  /** The upstream asked for more patience than the configured limit. */
  predicate TooPatient(retryAfter: Option<real>, rel: Reliability) {
    retryAfter.Some? && retryAfter.value > MaxReal(rel.retryAfterMax, 0.0)
  }

  /** The backoff steps double from the configured base, sixteen times at most, up to the configured
      maximum; the wait drawn is any time from half a step to the whole of it. Both are in milliseconds. */
  lemma BackoffLaw(rel: Reliability, attempt: nat, wait: real)
    ensures var cap := MaxReal(rel.backoffMaxMs, 0.0) / 1000.0;
            && BackoffCeiling(rel, 0) == MinReal(cap, MaxReal(rel.backoffBaseMs, 0.0) / 1000.0)
            && BackoffCeiling(rel, attempt + 1)
               == if attempt < 16 then MinReal(cap, 2.0 * BackoffCeiling(rel, attempt)) else BackoffCeiling(rel,
                                                                                                            attempt)
    ensures var step := BackoffCeiling(rel, attempt);
            && (forall draw :: step / 2.0 <= Backoff(rel, attempt, draw) <= step)
            && (step / 2.0 <= wait <= step ==> Backoff(rel, attempt, wait - step / 2.0) == wait)
  {
  }

  /** The model is given up exactly when the retry would hit a failed upstream again and that upstream
      asked for more patience than the limit. A retry of a failed upstream never comes before the time
      it asked for; a switch to another never waits longer than the backoff step. Every delay lies
      between half the backoff step and the larger of the two caps. */
  lemma DelayBounded(m: Model, attempt: nat, failed: set<string>, retryAfter: Option<real>, c: Conditions,
                     rel: Reliability)
    ensures var d := RetryDelay(m, attempt, failed, retryAfter, c, rel);
            && (d.None? <==> !HasAlternative(m, failed, c) && TooPatient(retryAfter, rel))
            && (d.Some? && !HasAlternative(m, failed, c) && retryAfter.Some? ==>
                  d.value == MaxReal(retryAfter.value, Backoff(rel, attempt, c.draw)))
            && (d.Some? && (HasAlternative(m, failed, c) || retryAfter.None?) ==>
                  d.value == Backoff(rel, attempt, c.draw) <= BackoffCeiling(rel, attempt))
            && (d.Some? ==> 0.0 <= BackoffCeiling(rel, attempt) / 2.0 <= d.value <= LongestDelay(rel))
  {
    var alternatives := Filter(m.deployments,
                               (d: Deployment) => d.baseUrl != "" && d.baseUrl !in failed && c.allowRetry(d));
    if alternatives != [] {
      assert alternatives[0] in alternatives;
    }
  }

  // ----- settlement -----------------------------------------------------------------------------

  predicate IsFailureStatus(status: int) { status == 429 || status >= 500 }

  predicate IsContextWindowError(status: int, mentionsContext: bool) {
    (status == 400 || status == 413) && mentionsContext
  }

  /** The registry call that settles a ticket, given how the attempt ended. */
  function Settlement(key: string, ticket: Ticket, u: Upstream): (call: Call)
    ensures ticket != NoTicket ==> Settles(call)
    ensures Settles(call) ==> call.key == key && call.ticket == ticket
  {
    match u
    case Responded(status, cacheHit, ra) =>
      if cacheHit then CallRelease(key, ticket)
      else if IsFailureStatus(status) then CallFailure(key, ticket, if status == 429 then ra else None)
      else if 400 <= status < 500 then CallRelease(key, ticket)
      else CallSuccess(key, ticket)
    case HttpError(status, ra, _) =>
      if IsFailureStatus(status) then CallFailure(key, ticket, if status == 429 || status == 503 then ra else None)
      else CallRelease(key, ticket)
    case NetworkError => CallFailure(key, ticket, None)
    case OtherError => CallRelease(key, ticket)
  }

  /** The upstream is to blame: a network error, a 429 or a 5xx, answered by the upstream itself. */
  predicate Blames(u: Upstream) {
    match u
    case Responded(status, cacheHit, _) => !cacheHit && (status == 429 || 500 <= status)
    case HttpError(status, _, _) => status == 429 || 500 <= status
    case NetworkError => true
    case OtherError => false
  }

  // ----- traces ---------------------------------------------------------------------------------

  datatype Action =
    | Asked(call: Call, ticket: Ticket)
    | Sent(url: string, at: real)
    | Settled(call: Call)
    | Slept(at: real, delay: real)

  type Trace = seq<Action>

  /** What the request holds after a trace. */
  datatype Grip = Empty | Gripping(key: string, ticket: Ticket) | Fumbled

  /** A request for a ticket names the circuit it is for as its key does. */
  predicate Identified(call: Call) {
    && call.CallAcquire?
    && (|| call.key == CircuitKey(call.meta.model, call.meta.deployment, call.meta.baseUrl)
        || call.meta == KeyMeta(call.key))
  }

  function GripStep(g: Grip, a: Action): Grip {
    match a
    case Asked(call, t) => if g.Empty? && Identified(call) && t != NoTicket then Gripping(call.key, t) else Fumbled
    case Sent(_, _) => if g.Gripping? then g else Fumbled
    case Settled(call) =>
      if g.Gripping? && Settles(call) && call.key == g.key && call.ticket == g.ticket then Empty else Fumbled
    case Slept(_, _) => if g.Empty? then g else Fumbled
  }

  /** What a trace amounts to: what the request holds, the upstreams tried and when each attempt
      started, how the attempts were settled, and the sleeps. */
  datatype Summary = Summary(grip: Grip, urls: seq<string>, starts: seq<real>, settled: seq<Call>, delays: seq<real>)

  const BLANK: Summary := Summary(Empty, [], [], [], [])

  function Note(s: Summary, a: Action): Summary {
    var grip := GripStep(s.grip, a);
    match a
    case Asked(_, _) => s.(grip := grip)
    case Sent(url, at) => s.(grip := grip, urls := s.urls + [url], starts := s.starts + [at])
    case Settled(call) => s.(grip := grip, settled := s.settled + [call])
    case Slept(_, delay) => s.(grip := grip, delays := s.delays + [delay])
  }

  function Summarise(t: Trace): Summary {
    if t == [] then BLANK else Note(Summarise(Front(t)), Last(t))
  }

  /** Every request goes upstream under a ticket, every ticket is settled once, with the key and the
      ticket it was granted, before the next is asked for and before any sleep. */
  function GripAfter(t: Trace): Grip { Summarise(t).grip }

  /** Two traces one after the other. */
  function Joined(a: Summary, b: Summary): Summary {
    Summary(b.grip, a.urls + b.urls, a.starts + b.starts, a.settled + b.settled, a.delays + b.delays)
  }

  lemma JoinedNote(a: Summary, b: Summary, x: Action)
    ensures Joined(a, Note(b, x)) == Note(Joined(a, b), x)
  {
  }

  lemma {:induction false} SummariseConcat(a: Trace, b: Trace)
    requires GripAfter(a) == Empty
    ensures Summarise(a + b) == Joined(Summarise(a), Summarise(b))
  {
    if b == [] {
      assert a + b == a;
    } else {
      assert Front(a + b) == a + Front(b) && Last(a + b) == Last(b);
      SummariseConcat(a, Front(b));
      JoinedNote(Summarise(a), Summarise(Front(b)), Last(b));
    }
  }

  lemma SummariseSnoc(t: Trace, a: Action)
    ensures Summarise(t + [a]) == Note(Summarise(t), a)
  {
    assert Front(t + [a]) == t;
  }

  /** The registry calls of a trace, as other requests see them. */
  function Calls(t: Trace): seq<Call> {
    if t == [] then [] else Calls(Front(t)) + CallOf(Last(t))
  }

  function CallOf(a: Action): seq<Call> {
    match a
    case Asked(call, _) => [call]
    case Settled(call) => [call]
    case _ => []
  }

  lemma HoldSnoc(calls: seq<Call>, more: seq<Call>)
    requires |more| <= 1
    ensures HoldAfter(calls + more) == if more == [] then HoldAfter(calls) else Hold(HoldAfter(calls), more[0])
  {
    if more == [] {
      assert calls + more == calls;
    } else {
      assert Front(calls + more) == calls && Last(calls + more) == more[0];
    }
  }

  /** A trace that never fumbles a ticket keeps the one-ticket discipline of the registry. */
  lemma {:induction false} GripIsHold(t: Trace)
    requires !GripAfter(t).Fumbled?
    ensures HoldAfter(Calls(t)) == if GripAfter(t).Gripping? then Holds(GripAfter(t).key) else Free
  {
    if t != [] {
      GripIsHold(Front(t));
      HoldSnoc(Calls(Front(t)), CallOf(Last(t)));
    }
  }

  // ----- one attempt ------------------------------------------------------------------------------

  datatype Verdict = TryAgain | MoveOn | Returned | Raised

  /** Where an attempt leaves the request unless the model is tried again. */
  function Outcome(u: Upstream): Verdict {
    match u
    case Responded(_, _, _) => Returned
    case OtherError => Raised
    case _ => MoveOn
  }

  /** The base URL of `apply_deployment`. */
  function TargetUrl(m: Model, dep: Option<Deployment>): string {
    if dep.Some? && dep.value.baseUrl != "" then dep.value.baseUrl else m.baseUrl
  }

  function TargetKey(m: Model, dep: Option<Deployment>): string {
    CircuitKey(m.name, if dep.Some? then dep.value.name else "", TargetUrl(m, dep))
  }

  lemma SentTrace(ask: Action, send: Action)
    ensures Summarise([ask, send]) == Note(Note(BLANK, ask), send)
  {
    assert Front([ask]) == [] && Summarise([ask]) == Note(BLANK, ask);
    assert [ask, send] == [ask] + [send];
    SummariseSnoc([ask], send);
  }

  lemma AttemptTrace(ask: Call, ticket: Ticket, url: string, now: real, call: Call)
    requires Identified(ask) && ticket != NoTicket && Settles(call) && call.key == ask.key && call.ticket == ticket
    ensures Summarise([Asked(ask, ticket), Sent(url, now)] + [Settled(call)])
         == Summary(Empty, [url], [now], [call], [])
  {
    SentTrace(Asked(ask, ticket), Sent(url, now));
    SummariseSnoc([Asked(ask, ticket), Sent(url, now)], Settled(call));
  }

  lemma SleepTrace(t: Trace, s: Summary, at: real, delay: real)
    requires Summarise(t) == s && s.grip == Empty && s.delays == []
    ensures Summarise(t + [Slept(at, delay)]) == s.(delays := [delay]) && Sum([delay]) == delay
  {
    SummariseSnoc(t, Slept(at, delay));
    assert Sum([delay]) == delay;
  }

  predicate Retryable(u: Upstream) { u.HttpError? || u.NetworkError? }

  /** The wait before the attempt after this one. */
  function Pause(m: Model, attempt: nat, failed: set<string>, c: Conditions, rel: Reliability): Option<real> {
    RetryDelay(m, attempt, failed, if c.upstream.HttpError? then c.upstream.retryAfter else None, c, rel)
  }

  /** A model is left before its attempts are used up: its context window is too small, or there is no
      point in waiting, or no time left to. */
  predicate GivesUp(m: Model, attempt: nat, failed: set<string>, now: real, deadline: real, c: Conditions,
                    rel: Reliability) {
    || (c.upstream.HttpError? && IsContextWindowError(c.upstream.status, c.upstream.contextWindow))
    || (attempt + 1 < Attempts(m)
        && var pause := Pause(m, attempt, failed, c, rel);
           pause.None? || now + pause.value >= deadline)
  }

  /** The statuses for which `_forward` raises never lead to the context-window exit. */
  lemma ContextExitIsIdle(m: Model, attempt: nat, failed: set<string>, now: real, deadline: real, c: Conditions,
                          rel: Reliability)
    requires c.upstream.HttpError? ==> c.upstream.status in RETRYABLE_STATUS
    ensures GivesUp(m, attempt, failed, now, deadline, c, rel) ==>
              attempt + 1 < Attempts(m)
              && (Pause(m, attempt, failed, c, rel).None?
                  || now + Pause(m, attempt, failed, c, rel).value >= deadline)
  {
  }

  /** After a retryable error: try again at once, after a sleep, or leave the model. */
  method DecideRetry(m: Model, attempt: nat, failed: set<string>, now: real, deadline: real, c: Conditions,
                     rel: Reliability)
    returns (verdict: Verdict, delay: real)
    requires Plausible(c)
    ensures verdict == if GivesUp(m, attempt, failed, now, deadline, c, rel) then MoveOn else TryAgain
    ensures verdict == TryAgain && attempt + 1 < Attempts(m) ==>
              Pause(m, attempt, failed, c, rel) == Some(delay) && now + delay < deadline
    ensures verdict == MoveOn || attempt + 1 >= Attempts(m) ==> delay == 0.0
    ensures 0.0 <= delay <= LongestDelay(rel)
  {
    delay := 0.0;
    if c.upstream.HttpError? && IsContextWindowError(c.upstream.status, c.upstream.contextWindow) {
      return MoveOn, 0.0;
    }
    if attempt + 1 >= Max(m.maxRetries, 0) + 1 {
      return TryAgain, 0.0;
    }
    var retryAfter := if c.upstream.HttpError? then c.upstream.retryAfter else None;
    var wait := RetryDelay(m, attempt, failed, retryAfter, c, rel);
    DelayBounded(m, attempt, failed, retryAfter, c, rel);
    if wait.None? || now + wait.value >= deadline {
      return MoveOn, 0.0;
    }
    return TryAgain, wait.value;
  }

  /** The body of the retry loop once the upstream is chosen: ask for a ticket, forward, settle on
      every exit, and decide what comes next. */
  method Attempt(m: Model, url: string, ask: Call, attempt: nat, failed: set<string>, now: real, deadline: real,
                 c: Conditions, rel: Reliability)
    returns (trace: Trace, failed': set<string>, now': real, verdict: Verdict)
    requires Plausible(c) && Identified(ask)
    ensures var delays := Summarise(trace).delays;
            && Summarise(trace) == Summary(Empty, [url], [now], [Settlement(ask.key, c.ticket, c.upstream)], delays)
            && now' == now + c.elapsed + Sum(delays)
            && DelaysOk(delays, LongestDelay(rel)) && (delays != [] ==> now' < deadline)
            && (verdict != TryAgain || attempt + 1 >= Attempts(m) ==> delays == [])
            && (verdict == TryAgain && attempt + 1 < Attempts(m) ==>
                  Pause(m, attempt, failed', c, rel) == Some(Sum(delays)) && now' < deadline)
    ensures failed' == if c.upstream.Responded? || c.upstream.OtherError? || url == "" then failed else failed + {url}
    ensures verdict == if Retryable(c.upstream) && !GivesUp(m, attempt, failed', now + c.elapsed, deadline, c, rel)
                       then TryAgain else Outcome(c.upstream)
  {
    var settled := false;
    failed' := failed;
    var settle := Settled(Settlement(ask.key, c.ticket, c.upstream));
    trace := [Asked(ask, c.ticket), Sent(url, now)];
    now' := now + c.elapsed;
    AttemptTrace(ask, c.ticket, url, now, settle.call);
    match c.upstream {
      case Responded(_, _, _) =>
        trace := trace + [settle];
        settled := true;
        verdict := Returned;
      case OtherError =>
        verdict := Raised;
      case _ =>
        if url != "" {
          failed' := failed + {url};
        }
        trace := trace + [settle];
        settled := true;
        var delay;
        verdict, delay := DecideRetry(m, attempt, failed', now', deadline, c, rel);
        if delay > 0.0 {
          SleepTrace(trace, Summarise(trace), now', delay);
          trace := trace + [Slept(now', delay)];
          now' := now' + delay;
        }
    }
    // finally
    if !settled {
      trace := trace + [Settled(CallRelease(ask.key, c.ticket))];
    }
  }

  // ----- one candidate ----------------------------------------------------------------------------

  function Attempts(m: Model): nat { Max(m.maxRetries, 0) + 1 }

  /** An upstream that failed is tried again only once every deployment of the model has failed. */
  ghost predicate Spreads(urls: seq<string>, m: Model) {
    UsableUrls(m) != {} ==> forall j: nat :: j < |urls| ==> SpreadAt(urls, m, j)
  }

  ghost predicate SpreadAt(urls: seq<string>, m: Model, j: nat)
    requires j < |urls|
  {
    urls[j] in UsableUrls(m) && (urls[j] in urls[..j] ==> UsableUrls(m) <= Elements(urls[..j]))
  }

  /** With `n` upstreams the first `n` attempts go to `n` different ones. */
  lemma FirstAttemptsDiffer(urls: seq<string>, m: Model, i: nat, j: nat)
    requires Spreads(urls, m) && UsableUrls(m) != {}
    requires i < j < |urls| && j < |UsableUrls(m)|
    ensures urls[i] != urls[j]
  {
    assert SpreadAt(urls, m, j);
    if urls[i] == urls[j] {
      assert urls[..j][i] == urls[j];
      SubsetSize(UsableUrls(m), Elements(urls[..j]));
      ElementsBound(urls[..j]);
    }
  }

  ghost predicate DelaysOk(delays: seq<real>, longest: real) {
    forall d :: d in delays ==> 0.0 < d <= longest
  }

  ghost predicate RetriesBefore(starts: seq<real>, deadline: real) {
    forall j :: 1 <= j < |starts| ==> starts[j] < deadline
  }

  /** The upstreams the selection is told to avoid. */
  function FailedUrls(urls: seq<string>): set<string> { Elements(urls) - {""} }

  lemma FailedGrows(urls: seq<string>, url: string)
    ensures FailedUrls(urls + [url]) == if url == "" then FailedUrls(urls) else FailedUrls(urls) + {url}
  {
    assert Elements(urls + [url]) == Elements(urls) + {url};
  }

  /** Where an attempt goes, given what failed before it, and how it is settled there: with the ticket it
      was given, as its outcome demands. */
  function Plan(m: Model, failed: set<string>, c: Conditions): (string, Call) {
    var dep := SelectDeployment(m, failed, c.selection);
    (TargetUrl(m, dep), Settlement(TargetKey(m, dep), c.ticket, c.upstream))
  }

  /** When the attempt after the one that started at `at` starts, if there is to be one: the error is
      retryable, and the pause fits in the budget. */
  function Resume(m: Model, attempt: nat, failed: set<string>, at: real, c: Conditions, deadline: real,
                  rel: Reliability): Option<real> {
    if !Retryable(c.upstream) || GivesUp(m, attempt, failed, at + c.elapsed, deadline, c, rel) then None
    else if attempt + 1 < Attempts(m) then Some(at + c.elapsed + Pause(m, attempt, failed, c, rel).value)
    else Some(at + c.elapsed)
  }

  type Planner = (set<string>, nat) -> (string, Call)

  type Resumer = (set<string>, nat, real) -> Option<real>

  function PlanFn(m: Model, env: nat -> Conditions): Planner {
    (failed: set<string>, j: nat) => Plan(m, failed, env(j))
  }

  function ResumeFn(m: Model, env: nat -> Conditions, deadline: real, rel: Reliability): Resumer {
    (failed: set<string>, j: nat, at: real) => Resume(m, j, failed, at, env(j), deadline, rel)
  }

  ghost predicate Planned(urls: seq<string>, settled: seq<Call>, plan: Planner)
    requires |urls| == |settled|
  {
    forall j: nat :: j < |urls| ==> PlannedAt(urls, settled, plan, j)
  }

  ghost predicate PlannedAt(urls: seq<string>, settled: seq<Call>, plan: Planner, j: nat)
    requires j < |urls| == |settled|
  {
    (urls[j], settled[j]) == plan(FailedUrls(urls[..j]), j)
  }

  ghost predicate Resumed(urls: seq<string>, starts: seq<real>, resume: Resumer)
    requires |urls| == |starts|
  {
    forall j: nat :: j < |urls| - 1 ==> ResumedAt(urls, starts, resume, j)
  }

  ghost predicate ResumedAt(urls: seq<string>, starts: seq<real>, resume: Resumer, j: nat)
    requires j < |urls| - 1 && |urls| == |starts|
  {
    Some(starts[j + 1]) == resume(FailedUrls(urls[..j + 1]), j, starts[j])
  }

  /** The attempts so far, each exactly as planned, and the time of the next. */
  ghost predicate RunSoFar(s: Summary, next: real, plan: Planner, resume: Resumer) {
    && |s.urls| == |s.starts| == |s.settled|
    && Planned(s.urls, s.settled, plan)
    && Resumed(s.urls, s.starts, resume)
    && (s.urls != [] ==> Some(next) == resume(FailedUrls(s.urls), |s.urls| - 1, Last(s.starts)))
  }

  /** A whole run: every attempt exactly as planned, and none missing at the end. */
  ghost predicate WholeRun(s: Summary, attempts: nat, plan: Planner, resume: Resumer) {
    && 1 <= |s.urls| == |s.starts| == |s.settled| <= attempts
    && Planned(s.urls, s.settled, plan)
    && Resumed(s.urls, s.starts, resume)
    && (|s.urls| == attempts || resume(FailedUrls(s.urls), |s.urls| - 1, Last(s.starts)).None?)
  }

  ghost predicate CandidateRun(m: Model, s: Summary, env: nat -> Conditions, deadline: real, rel: Reliability) {
    WholeRun(s, Attempts(m), PlanFn(m, env), ResumeFn(m, env, deadline, rel))
  }

  /** How a candidate's run ended. */
  function EndOf(s: Summary, env: nat -> Conditions): Verdict {
    if s.urls == [] then MoveOn else Outcome(env(|s.urls| - 1).upstream)
  }

  lemma PlannedGrows(urls: seq<string>, settled: seq<Call>, plan: Planner, url: string, call: Call)
    requires |urls| == |settled| && Planned(urls, settled, plan)
    requires (url, call) == plan(FailedUrls(urls), |urls|)
    ensures Planned(urls + [url], settled + [call], plan)
  {
    forall j: nat | j < |urls| + 1 ensures PlannedAt(urls + [url], settled + [call], plan, j) {
      assert j < |urls| ==> PlannedAt(urls, settled, plan, j);
      assert (urls + [url])[..j] == urls[..j];
      assert urls[..|urls|] == urls;
    }
  }

  lemma ResumedGrows(urls: seq<string>, starts: seq<real>, resume: Resumer, url: string, now: real)
    requires |urls| == |starts| && Resumed(urls, starts, resume)
    requires urls != [] ==> Some(now) == resume(FailedUrls(urls), |urls| - 1, Last(starts))
    ensures Resumed(urls + [url], starts + [now], resume)
  {
    forall j: nat | j < |urls| ensures ResumedAt(urls + [url], starts + [now], resume, j) {
      assert j < |urls| - 1 ==> ResumedAt(urls, starts, resume, j);
      assert (urls + [url])[..j + 1] == urls[..j + 1];
      assert urls[..|urls|] == urls;
    }
  }

  /** One more attempt, made as planned, keeps the run exact; if it was the last, the run is whole. */
  lemma RunGrows(s: Summary, now: real, plan: Planner, resume: Resumer, more: Summary, later: real, attempts: nat)
    requires RunSoFar(s, now, plan, resume) && |s.urls| < attempts
    requires |more.urls| == |more.settled| == 1 && more.starts == [now]
    requires (more.urls[0], more.settled[0]) == plan(FailedUrls(s.urls), |s.urls|)
    ensures var resumed := resume(FailedUrls(s.urls + more.urls), |s.urls|, now);
            && (resumed == Some(later) ==> RunSoFar(Joined(s, more), later, plan, resume))
            && (resumed.None? ==> WholeRun(Joined(s, more), attempts, plan, resume))
  {
    var url, call := more.urls[0], more.settled[0];
    assert more.urls == [url] && more.settled == [call];
    PlannedGrows(s.urls, s.settled, plan, url, call);
    ResumedGrows(s.urls, s.starts, resume, url, now);
  }

  /** The bounds a candidate's trace keeps: no ticket held, retries and sleeps within their limits, and
      the time accounted for. */
  ghost predicate Paced(s: Summary, start: real, now: real, deadline: real, longest: real) {
    && s.grip == Empty
    && RetriesBefore(s.starts, deadline)
    && DelaysOk(s.delays, longest)
    && now >= start + Sum(s.delays)
    && (s.delays != [] ==> start + Sum(s.delays) < deadline)
  }

  lemma PacedGrows(s: Summary, start: real, now: real, deadline: real, longest: real, more: Summary, later: real)
    requires Paced(s, start, now, deadline, longest) && (s.starts != [] ==> now < deadline)
    requires more.grip == Empty && more.starts == [now]
    requires later >= now + Sum(more.delays) && DelaysOk(more.delays, longest)
    requires more.delays != [] ==> now + Sum(more.delays) < deadline
    ensures Paced(Joined(s, more), start, later, deadline, longest)
  {
    SumAppend(s.delays, more.delays);
  }

  /** What the attempts on one candidate amount to. */
  ghost predicate CandidateOk(m: Model, s: Summary, clockStart: real, rel: Reliability) {
    && s.grip == Empty
    && 1 <= |s.urls| == |s.starts| <= Max(m.maxRetries, 0) + 1
    && RetriesBefore(s.starts, Deadline(m, clockStart, rel))
    && DelaysOk(s.delays, MaxReal(MaxReal(rel.backoffMaxMs, 0.0) / 1000.0, MaxReal(rel.retryAfterMax, 0.0)))
    && Spreads(s.urls, m)
    && (forall url :: url in s.urls ==> IsAddress(url, m))
  }

  /** Retries may take as long as the model's own timeout, or the configured budget if it has none. */
  function TimeFor(m: Model, rel: Reliability): real {
    MaxReal(if m.timeout > 0.0 then m.timeout else rel.retryBudget, 0.0)
  }

  function Deadline(m: Model, clockStart: real, rel: Reliability): real { clockStart + TimeFor(m, rel) }

  /** An address of the model: one of its deployments', or its own if no deployment has one. */
  predicate IsAddress(url: string, m: Model) {
    if exists d :: d in m.deployments && d.baseUrl != "" then
      url != "" && exists d :: d in m.deployments && d.baseUrl == url
    else url == m.baseUrl
  }

  method TryCandidate(m: Model, clockStart: real, now: real, env: nat -> Conditions, rel: Reliability)
    returns (trace: Trace, now': real, verdict: Verdict)
    requires AllPlausible(env)
    ensures Over(m, Summarise(trace), |Summarise(trace).urls|, now, now', clockStart + RetryBudget(m, rel), env, rel,
                 verdict)
  {
    trace := [];
    now' := now;
    var attempts := Max(m.maxRetries, 0) + 1;
    var failed: set<string> := {};
    var deadline := clockStart + RetryBudget(m, rel);
    var attempt := 0;
    UnderwayAtStart(m, now, deadline, env, rel);
    while attempt < attempts
      invariant 0 <= attempt <= attempts
      invariant Underway(m, Summarise(trace), attempt, failed, now, now', deadline, env, rel)
    {
      trace, failed, now', verdict := TryOnce(m, trace, attempt, failed, now, now', deadline, env, rel);
      if verdict != TryAgain {
        return;
      }
      attempt := attempt + 1;
    }
    verdict := MoveOn;
    UnderwayAtEnd(m, Summarise(trace), now, now', failed, deadline, env, rel);
  }

  lemma UnderwayAtStart(m: Model, now: real, deadline: real, env: nat -> Conditions, rel: Reliability)
    ensures Underway(m, Summarise([]), 0, {}, now, now, deadline, env, rel)
  {
  }

  lemma UnderwayAtEnd(m: Model, s: Summary, start: real, now: real, failed: set<string>, deadline: real,
                      env: nat -> Conditions, rel: Reliability)
    requires Underway(m, s, Attempts(m), failed, start, now, deadline, env, rel)
    ensures Over(m, s, |s.urls|, start, now, deadline, env, rel, MoveOn)
  {
  }

  /** The state of the retry loop after `n` attempts, each of which asked for another. */
  ghost predicate Underway(m: Model, s: Summary, n: nat, failed: set<string>, start: real, now: real, deadline: real,
                           env: nat -> Conditions, rel: Reliability) {
    && |s.urls| == |s.starts| == n
    && Paced(s, start, now, deadline, LongestDelay(rel)) && (0 < n < Attempts(m) ==> now < deadline)
    && Spreads(s.urls, m) && failed == FailedUrls(s.urls)
    && RunSoFar(s, now, PlanFn(m, env), ResumeFn(m, env, deadline, rel))
    && (n > 0 ==> Retryable(env(n - 1).upstream))
  }

  /** The candidate is done with after `n` attempts. */
  ghost predicate Over(m: Model, s: Summary, n: nat, start: real, now: real, deadline: real, env: nat -> Conditions,
                       rel: Reliability, verdict: Verdict) {
    && 0 < |s.urls| == |s.starts| == n <= Attempts(m)
    && Paced(s, start, now, deadline, LongestDelay(rel))
    && Spreads(s.urls, m)
    && CandidateRun(m, s, env, deadline, rel)
    && verdict == Outcome(env(n - 1).upstream)
  }

  lemma AskIsIdentified(model: string, deployment: string, url: string)
    ensures var key := CircuitKey(model, deployment, url);
            Identified(CallAcquire(key, MetaFor(key, model, deployment, StripSlashes(url))))
  {
    var _ := StripsSlashes(url);
    assert StripSlashes(StripSlashes(url)) == StripSlashes(url);
  }

  /** One pass of the retry loop: select an upstream and make the attempt. */
  method TryOnce(m: Model, trace: Trace, attempt: nat, failed: set<string>, ghost start: real, now: real,
                 deadline: real, env: nat -> Conditions, rel: Reliability)
    returns (trace': Trace, failed': set<string>, now': real, verdict: Verdict)
    requires attempt < Attempts(m) && Plausible(env(attempt))
    requires Underway(m, Summarise(trace), attempt, failed, start, now, deadline, env, rel)
    ensures if verdict == TryAgain
            then Underway(m, Summarise(trace'), attempt + 1, failed', start, now', deadline, env, rel)
            else Over(m, Summarise(trace'), |Summarise(trace').urls|, start, now', deadline, env, rel, verdict)
  {
    var c := env(attempt);
    var dep := SelectDeployment(m, failed, c.selection);
    var url := TargetUrl(m, dep);
    var key := TargetKey(m, dep);
    var ask := CallAcquire(key, MetaFor(key, m.name, if dep.Some? then dep.value.name else "", StripSlashes(url)));
    AskIsIdentified(m.name, if dep.Some? then dep.value.name else "", url);
    var more;
    more, failed', now', verdict := Attempt(m, url, ask, attempt, failed, now, deadline, c, rel);
    trace' := trace + more;
    SummariseConcat(trace, more);
    ghost var avoid := if url == "" then failed else failed + {url};
    FailedGrows(Summarise(trace).urls, url);
    UnderwayStep(m, Summarise(trace), attempt, failed, start, now, deadline, env, rel,
                 Summarise(more), Summarise(trace'), avoid, now', verdict);
  }

  lemma UnderwayStep(m: Model, s: Summary, n: nat, failed: set<string>, start: real, now: real, deadline: real,
                     env: nat -> Conditions, rel: Reliability, more: Summary, next: Summary, avoid: set<string>,
                     later: real, verdict: Verdict)
    requires n < Attempts(m) && Plausible(env(n)) && Underway(m, s, n, failed, start, now, deadline, env, rel)
    requires |more.urls| == |more.settled| == 1 && more.starts == [now] && more.grip == Empty && next == Joined(s, more)
    requires avoid == FailedUrls(s.urls + more.urls)
    requires (more.urls[0], more.settled[0]) == Plan(m, failed, env(n))
    requires later == now + env(n).elapsed + Sum(more.delays) && DelaysOk(more.delays, LongestDelay(rel))
    requires more.delays != [] ==> later < deadline
    requires verdict ==
               if Retryable(env(n).upstream) && !GivesUp(m, n, avoid, now + env(n).elapsed, deadline, env(n), rel)
               then TryAgain else Outcome(env(n).upstream)
    requires verdict == TryAgain && n + 1 < Attempts(m) ==>
               later < deadline && Pause(m, n, avoid, env(n), rel) == Some(Sum(more.delays))
    requires verdict != TryAgain || n + 1 >= Attempts(m) ==> more.delays == []
    ensures if verdict == TryAgain then Underway(m, next, n + 1, avoid, start, later, deadline, env, rel)
            else |next.urls| == n + 1 && Over(m, next, |next.urls|, start, later, deadline, env, rel, verdict)
  {
    NextSpreads(s.urls, m, failed, env(n).selection);
    assert more.urls == [more.urls[0]];
    PacedGrows(s, start, now, deadline, LongestDelay(rel), more, later);
    RunGrows(s, now, PlanFn(m, env), ResumeFn(m, env, deadline, rel), more, later, Attempts(m));
  }

  /** The next upstream chosen keeps the attempts spread. */
  lemma NextSpreads(urls: seq<string>, m: Model, failed: set<string>, env: Surroundings)
    requires Spreads(urls, m)
    requires failed == FailedUrls(urls)
    ensures var url := TargetUrl(m, SelectDeployment(m, failed, env));
            Spreads(urls + [url], m)
  {
    if UsableUrls(m) != {} {
      var dep := SelectDeployment(m, failed, env);
      var url := TargetUrl(m, dep);
      assert url == dep.value.baseUrl;
      var all := urls + [url];
      forall j: nat | j < |all| ensures SpreadAt(all, m, j) {
        if j < |urls| {
          assert SpreadAt(urls, m, j);
          assert all[..j] == urls[..j];
        } else {
          assert all[..j] == urls;
        }
      }
    }
  }

  // ----- a whole request --------------------------------------------------------------------------

  function Concat(ts: seq<Trace>): Trace {
    if ts == [] then [] else Concat(Front(ts)) + Last(ts)
  }

  function TotalAttempts(chain: seq<Model>): nat {
    if chain == [] then 0 else TotalAttempts(Front(chain)) + Max(Last(chain).maxRetries, 0) + 1
  }

  function LargestBudget(chain: seq<Model>, rel: Reliability): real {
    if chain == [] then 0.0 else MaxReal(LargestBudget(Front(chain), rel), TimeFor(Last(chain), rel))
  }

  /** What a request has done after the candidates it tried. */
  ghost predicate RequestOk(tried: seq<Model>, ts: seq<Trace>, clockStart: real, rel: Reliability) {
    && |ts| == |tried|
    && EachOk(tried, ts, clockStart, rel)
    && TotalsOk(tried, Summarise(Concat(ts)), rel)
  }

  ghost predicate EachOk(tried: seq<Model>, ts: seq<Trace>, clockStart: real, rel: Reliability)
    requires |tried| == |ts|
  {
    forall i :: 0 <= i < |ts| ==> CandidateOk(tried[i], Summarise(ts[i]), clockStart, rel)
  }

  lemma EachStep(tried: seq<Model>, ts: seq<Trace>, m: Model, t: Trace, clockStart: real, rel: Reliability)
    requires |tried| == |ts| && EachOk(tried, ts, clockStart, rel) && CandidateOk(m, Summarise(t), clockStart, rel)
    ensures EachOk(tried + [m], ts + [t], clockStart, rel)
  {
    forall i | 0 <= i < |ts| + 1 ensures CandidateOk((tried + [m])[i], Summarise((ts + [t])[i]), clockStart, rel) {
      if i < |ts| {
        assert CandidateOk(tried[i], Summarise(ts[i]), clockStart, rel);
        assert (tried + [m])[i] == tried[i] && (ts + [t])[i] == ts[i];
      }
    }
  }

  /** The whole trace of a request against the candidates it tried. */
  ghost predicate TotalsOk(tried: seq<Model>, s: Summary, rel: Reliability) {
    && s.grip == Empty
    && |s.urls| <= TotalAttempts(tried)
    && DelaysOk(s.delays, MaxReal(MaxReal(rel.backoffMaxMs, 0.0) / 1000.0, MaxReal(rel.retryAfterMax, 0.0)))
    && Sum(s.delays) <= LargestBudget(tried, rel)
  }

  /** Every candidate's run is the one its conditions demand; all but the last ended in moving on, and
      the last ended the request. */
  ghost predicate RunsAre(tried: seq<Model>, ts: seq<Trace>, env: nat -> nat -> Conditions, clockStart: real,
                          rel: Reliability, verdict: Verdict) {
    && |tried| == |ts|
    && (tried == [] ==> verdict == MoveOn)
    && forall i: nat :: i < |ts| ==>
         RunAt(tried[i], Summarise(ts[i]), env(i), clockStart, rel, if i == |ts| - 1 then verdict else MoveOn)
  }

  ghost predicate RunAt(m: Model, s: Summary, env: nat -> Conditions, clockStart: real, rel: Reliability,
                        verdict: Verdict) {
    CandidateRun(m, s, env, clockStart + RetryBudget(m, rel), rel) && EndOf(s, env) == verdict
  }

  lemma RunsStep(tried: seq<Model>, ts: seq<Trace>, env: nat -> nat -> Conditions, clockStart: real, rel: Reliability,
                 m: Model, t: Trace, verdict: Verdict)
    requires RunsAre(tried, ts, env, clockStart, rel, MoveOn)
    requires RunAt(m, Summarise(t), env(|ts|), clockStart, rel, verdict)
    ensures RunsAre(tried + [m], ts + [t], env, clockStart, rel, verdict)
  {
    forall i: nat | i < |ts| + 1
      ensures RunAt((tried + [m])[i], Summarise((ts + [t])[i]), env(i), clockStart, rel,
                    if i == |ts| then verdict else MoveOn)
    {
      if i < |ts| {
        assert RunAt(tried[i], Summarise(ts[i]), env(i), clockStart, rel, MoveOn);
      }
    }
  }

  /** The candidates tried so far were all left, and the time the sleeping took has passed. */
  ghost predicate InProgress(chain: seq<Model>, tried: seq<Model>, ts: seq<Trace>, now: real, clockStart: real,
                             env: nat -> nat -> Conditions, rel: Reliability) {
    && tried <= chain && |tried| == |ts|
    && RequestOk(tried, ts, clockStart, rel)
    && RunsAre(tried, ts, env, clockStart, rel, MoveOn)
    && now >= clockStart + Sum(Summarise(Concat(ts)).delays)
  }

  lemma NothingTried(chain: seq<Model>, clockStart: real, env: nat -> nat -> Conditions, rel: Reliability)
    ensures InProgress(chain, [], [], clockStart, clockStart, env, rel)
  {
  }

  /** One more candidate extends everything known of the request. */
  lemma CandidateStep(chain: seq<Model>, tried: seq<Model>, ts: seq<Trace>, m: Model, t: Trace, now: real, later: real,
                      clockStart: real, env: nat -> nat -> Conditions, rel: Reliability, verdict: Verdict)
    requires InProgress(chain, tried, ts, now, clockStart, env, rel) && |tried| < |chain| && m == chain[|tried|]
    requires Over(m, Summarise(t), |Summarise(t).urls|, now, later, clockStart + RetryBudget(m, rel), env(|ts|), rel,
                  verdict)
    ensures tried + [m] <= chain
    ensures RequestOk(tried + [m], ts + [t], clockStart, rel)
    ensures RunsAre(tried + [m], ts + [t], env, clockStart, rel, verdict)
    ensures verdict == MoveOn ==> InProgress(chain, tried + [m], ts + [t], later, clockStart, env, rel)
  {
    OverIsOk(m, Summarise(t), now, later, clockStart, env(|ts|), rel, verdict);
    RequestStep(tried, ts, m, t, now, later, clockStart, rel);
    RunsStep(tried, ts, env, clockStart, rel, m, t, verdict);
  }

  /** The loop of `handle`: try the candidates in order until one answers or raises. Every ticket is
      settled on every way out; no attempt is made beyond a candidate's retries; retries start before
      the candidate's deadline; all sleeping together fits in the largest budget. */
  method Handle(chain: seq<Model>, clockStart: real, env: nat -> nat -> Conditions, rel: Reliability)
    returns (tried: seq<Model>, traces: seq<Trace>, verdict: Verdict)
    requires forall i: nat :: AllPlausible(env(i))
    ensures tried <= chain && (verdict == MoveOn ==> tried == chain)
    ensures RequestOk(tried, traces, clockStart, rel)
    ensures RunsAre(tried, traces, env, clockStart, rel, verdict)
  {
    tried, traces, verdict := [], [], MoveOn;
    var now := clockStart;
    NothingTried(chain, clockStart, env, rel);
    for idx := 0 to |chain|
      invariant |tried| == |traces| == idx && verdict == MoveOn
      invariant InProgress(chain, tried, traces, now, clockStart, env, rel)
    {
      var m := chain[idx];
      var t, later;
      t, later, verdict := TryCandidate(m, clockStart, now, env(idx), rel);
      CandidateStep(chain, tried, traces, m, t, now, later, clockStart, env, rel, verdict);
      tried, traces, now := tried + [m], traces + [t], later;
      if verdict != MoveOn {
        return;
      }
    }
  }

  /** What the ticket of an attempt is held and settled under: the key of the deployment whose address the
      attempt went to, or of the model itself if no deployment has an address. */
  predicate IsKeyOf(key: string, url: string, m: Model) {
    if exists d :: d in m.deployments && d.baseUrl != "" then
      exists d :: d in m.deployments && d.baseUrl == url && key == CircuitKey(m.name, d.name, url)
    else key == CircuitKey(m.name, "", m.baseUrl)
  }

  lemma TargetIsAddress(m: Model, failed: set<string>, env: Surroundings)
    ensures var dep := SelectDeployment(m, failed, env);
            IsAddress(TargetUrl(m, dep), m) && IsKeyOf(TargetKey(m, dep), TargetUrl(m, dep), m)
  {
    var dep := SelectDeployment(m, failed, env);
    if dep.None? {
      forall d | d in m.deployments ensures d.baseUrl == "" {
        assert d.baseUrl != "" ==> d in Usable(m) && d.baseUrl in UsableUrls(m);
      }
    } else {
      assert dep.value in m.deployments && dep.value.baseUrl != "";
    }
  }

  /** Every attempt of a candidate goes to an address of the model and is settled under that address's key,
      with the ticket it was given. */
  lemma SettledWhereSent(m: Model, s: Summary, env: nat -> Conditions, deadline: real, rel: Reliability, j: nat)
    requires CandidateRun(m, s, env, deadline, rel) && j < |s.urls| && AllPlausible(env)
    ensures IsAddress(s.urls[j], m)
    ensures Settles(s.settled[j]) && s.settled[j].ticket == env(j).ticket && IsKeyOf(s.settled[j].key, s.urls[j], m)
  {
    assert PlannedAt(s.urls, s.settled, PlanFn(m, env), j) && Plausible(env(j));
    TargetIsAddress(m, FailedUrls(s.urls[..j]), env(j).selection);
  }

  lemma AddressesOf(m: Model, s: Summary, env: nat -> Conditions, deadline: real, rel: Reliability)
    requires CandidateRun(m, s, env, deadline, rel)
    ensures forall url :: url in s.urls ==> IsAddress(url, m)
  {
    forall j: nat | j < |s.urls| ensures IsAddress(s.urls[j], m) {
      assert PlannedAt(s.urls, s.settled, PlanFn(m, env), j);
      TargetIsAddress(m, FailedUrls(s.urls[..j]), env(j).selection);
    }
  }

  lemma OverIsOk(m: Model, s: Summary, start: real, now: real, clockStart: real, env: nat -> Conditions,
                 rel: Reliability, verdict: Verdict)
    requires Over(m, s, |s.urls|, start, now, clockStart + RetryBudget(m, rel), env, rel, verdict)
    ensures CandidateOk(m, s, clockStart, rel)
    ensures Paced(s, start, now, clockStart + RetryBudget(m, rel), LongestDelay(rel))
    ensures RunAt(m, s, env, clockStart, rel, verdict)
  {
    AddressesOf(m, s, env, clockStart + RetryBudget(m, rel), rel);
  }

  lemma RequestStep(tried: seq<Model>, ts: seq<Trace>, m: Model, t: Trace, now: real, later: real, clockStart: real,
                    rel: Reliability)
    requires RequestOk(tried, ts, clockStart, rel)
    requires CandidateOk(m, Summarise(t), clockStart, rel)
    requires now >= clockStart + Sum(Summarise(Concat(ts)).delays)
    requires Paced(Summarise(t), now, later, clockStart + RetryBudget(m, rel), LongestDelay(rel))
    ensures RequestOk(tried + [m], ts + [t], clockStart, rel)
    ensures later >= clockStart + Sum(Summarise(Concat(ts + [t])).delays)
  {
    assert Front(ts + [t]) == ts;
    EachStep(tried, ts, m, t, clockStart, rel);
    SummariseConcat(Concat(ts), t);
    TotalsStep(tried, Summarise(Concat(ts)), m, Summarise(t), now, later, clockStart, rel);
  }

  lemma TotalsStep(tried: seq<Model>, whole: Summary, m: Model, s: Summary, now: real, later: real, clockStart: real,
                   rel: Reliability)
    requires TotalsOk(tried, whole, rel)
    requires |s.urls| <= Attempts(m)
    requires now >= clockStart + Sum(whole.delays)
    requires Paced(s, now, later, clockStart + RetryBudget(m, rel), LongestDelay(rel))
    ensures TotalsOk(tried + [m], Joined(whole, s), rel)
    ensures later >= clockStart + Sum(Joined(whole, s).delays)
  {
    assert Front(tried + [m]) == tried;
    SumAppend(whole.delays, s.delays);
  }

  // ----- why a candidate is left, and how a request ends --------------------------------------------

  /** How long an attempt waits before it is repeated: the backoff drawn, or what the upstream asked for if
      that is longer and the upstream is the only choice left. */
  function WaitAfter(m: Model, attempt: nat, failed: set<string>, c: Conditions, rel: Reliability): real {
    var backoff := Backoff(rel, attempt, c.draw);
    if c.upstream.HttpError? && c.upstream.retryAfter.Some? && !HasAlternative(m, failed, c)
    then MaxReal(c.upstream.retryAfter.value, backoff) else backoff
  }

  /** An attempt after which the model is left although more are allowed: it was answered or broke off, the
      request is too long for the model, the only choice left asks for too much patience, or the next
      attempt would start too late. */
  ghost predicate Stops(m: Model, attempt: nat, failed: set<string>, at: real, c: Conditions, deadline: real,
                        rel: Reliability) {
    || c.upstream.Responded? || c.upstream.OtherError?
    || (c.upstream.HttpError? && c.upstream.status in {400, 413} && c.upstream.contextWindow)
    || (c.upstream.HttpError? && TooPatient(c.upstream.retryAfter, rel) && !HasAlternative(m, failed, c))
    || at + c.elapsed + WaitAfter(m, attempt, failed, c, rel) >= deadline
  }

  /** Attempt `j` of a run, given the failures up to it, is the last. */
  ghost predicate StopsAt(m: Model, s: Summary, env: nat -> Conditions, deadline: real, rel: Reliability, j: nat)
    requires j < |s.urls| == |s.starts|
  {
    Stops(m, j, FailedUrls(s.urls[..j + 1]), s.starts[j], env(j), deadline, rel)
  }

  /** Attempt `j` of a run is repeated, after its wait. */
  ghost predicate GoesOnAt(m: Model, s: Summary, env: nat -> Conditions, deadline: real, rel: Reliability, j: nat)
    requires j < |s.urls| - 1 && |s.urls| == |s.starts|
  {
    && !StopsAt(m, s, env, deadline, rel, j)
    && s.starts[j + 1]
       == s.starts[j] + env(j).elapsed + WaitAfter(m, j, FailedUrls(s.urls[..j + 1]), env(j), rel)
  }

  lemma ResumeIff(m: Model, attempt: nat, failed: set<string>, at: real, c: Conditions, deadline: real,
                  rel: Reliability)
    requires attempt < Max(m.maxRetries, 0)
    ensures Resume(m, attempt, failed, at, c, deadline, rel)
         == if Stops(m, attempt, failed, at, c, deadline, rel) then None
            else Some(at + c.elapsed + WaitAfter(m, attempt, failed, c, rel))
  {
    DelayBounded(m, attempt, failed, if c.upstream.HttpError? then c.upstream.retryAfter else None, c, rel);
  }

  /** How many attempts are made on a candidate, exactly, and when: one more than its retries, each after
      the wait of the one before, unless an attempt stops the run, and then no more. So a model without
      retries is tried once, and one whose attempts all fail and can be repeated in time is tried as often
      as it allows. */
  lemma AttemptsExactly(m: Model, s: Summary, env: nat -> Conditions, clockStart: real, rel: Reliability,
                        verdict: Verdict)
    requires RunAt(m, s, env, clockStart, rel, verdict)
    ensures 1 <= |s.urls| == |s.starts| <= Max(m.maxRetries, 0) + 1
    ensures forall j: nat :: j < |s.urls| - 1 ==> GoesOnAt(m, s, env, Deadline(m, clockStart, rel), rel, j)
    ensures |s.urls| < Max(m.maxRetries, 0) + 1 ==>
              StopsAt(m, s, env, Deadline(m, clockStart, rel), rel, |s.urls| - 1)
  {
    var deadline, n := Deadline(m, clockStart, rel), |s.urls|;
    var resume := ResumeFn(m, env, deadline, rel);
    forall j: nat | j < n - 1 ensures GoesOnAt(m, s, env, deadline, rel, j) {
      assert ResumedAt(s.urls, s.starts, resume, j);
      ResumeIff(m, j, FailedUrls(s.urls[..j + 1]), s.starts[j], env(j), deadline, rel);
    }
    if n < Max(m.maxRetries, 0) + 1 {
      assert s.urls[..n] == s.urls;
      ResumeIff(m, n - 1, FailedUrls(s.urls), s.starts[n - 1], env(n - 1), deadline, rel);
    }
  }

  /** How the last attempt of a candidate ended. */
  function LastOutcome(s: Summary, env: nat -> Conditions): Upstream
    requires s.urls != []
  {
    env(|s.urls| - 1).upstream
  }

  /** How a request ends: it is answered exactly if the last attempt of the last candidate tried was, and
      breaks off exactly if that one did; every candidate before was left over an error of its upstream. */
  lemma RequestEnds(tried: seq<Model>, ts: seq<Trace>, env: nat -> nat -> Conditions, clockStart: real,
                    rel: Reliability, verdict: Verdict, i: nat)
    requires RunsAre(tried, ts, env, clockStart, rel, verdict) && i < |ts|
    ensures var s := Summarise(ts[i]);
            && s.urls != []
            && (i < |ts| - 1 ==> LastOutcome(s, env(i)).HttpError? || LastOutcome(s, env(i)).NetworkError?)
            && (i == |ts| - 1 ==>
                  && (verdict == Returned <==> LastOutcome(s, env(i)).Responded?)
                  && (verdict == Raised <==> LastOutcome(s, env(i)).OtherError?)
                  && verdict != TryAgain)
  {
    assert RunAt(tried[i], Summarise(ts[i]), env(i), clockStart, rel, if i == |ts| - 1 then verdict else MoveOn);
  }

  // ----- from the requested name to the answer ------------------------------------------------------

  /** `handle` from the resolution of a requested name on: resolve, walk the fallback links, filter, and
      try the candidates. Every model tried passed the caller's access check; there are at most 17, in
      chain order; and a name that does not resolve sends nothing anywhere. */
  method Serve(w: FallbackChain.World, who: Option<FallbackChain.Caller>, requested: string, maxDepth: int,
               unhealthy: Option<Model -> bool>, circuitsEnabled: bool, admitted: Model -> bool,
               clockStart: real, env: nat -> nat -> Conditions, rel: Reliability)
    returns (chain: seq<Model>, tried: seq<Model>, traces: seq<Trace>, verdict: Verdict)
    requires forall i: nat :: AllPlausible(env(i))
    ensures FallbackChain.ResolveModel(w, who, requested).None? ==> chain == tried == [] && verdict == Raised
    ensures FallbackChain.ResolveModel(w, who, requested).Some? ==>
              && IsFallbackChain(chain, w, who, requested, maxDepth)
              && tried != []
              && tried <= FallbackChain.Tried(chain, unhealthy, circuitsEnabled, admitted)
              && (verdict == MoveOn ==> tried == FallbackChain.Tried(chain, unhealthy, circuitsEnabled, admitted))
              && RunsAre(tried, traces, env, clockStart, rel, verdict)
    ensures AllAllowed(tried, w, who) && |tried| <= FallbackChain.ChainMax(maxDepth)
    ensures RequestOk(tried, traces, clockStart, rel)
  {
    var start := FallbackChain.ResolveModel(w, who, requested);
    if start.None? {
      return [], [], [], Raised;
    }
    chain := FallbackChain.WalkFallbackNames(
      start.value, n => FallbackChain.ResolveModel(w, who, n), FallbackChain.DepthLimit(maxDepth));
    ChainIsAllowed(chain, w, who, requested, maxDepth);
    var candidates := FallbackChain.Tried(chain, unhealthy, circuitsEnabled, admitted);
    FallbackChain.TriedChain(chain, unhealthy, circuitsEnabled, admitted);
    tried, traces, verdict := Handle(candidates, clockStart, env, rel);
    PrefixAllowed(chain, candidates, tried, w, who);
  }

  /** The chain of a request that resolves. */
  ghost predicate IsFallbackChain(chain: seq<Model>, w: FallbackChain.World, who: Option<FallbackChain.Caller>,
                                  requested: string, maxDepth: int)
    requires FallbackChain.ResolveModel(w, who, requested).Some?
  {
    FallbackChain.IsChain(chain, FallbackChain.ResolveModel(w, who, requested).value,
                          n => FallbackChain.ResolveModel(w, who, n), FallbackChain.DepthLimit(maxDepth))
  }

  ghost predicate AllAllowed(ms: seq<Model>, w: FallbackChain.World, who: Option<FallbackChain.Caller>) {
    who.Some? && w.access.Some? ==>
      forall m :: m in ms ==> FallbackChain.Allowed(w.access.value, who.value, m.name)
  }

  lemma ChainIsAllowed(chain: seq<Model>, w: FallbackChain.World, who: Option<FallbackChain.Caller>, requested: string,
                       maxDepth: int)
    requires FallbackChain.ResolveModel(w, who, requested).Some?
    requires IsFallbackChain(chain, w, who, requested, maxDepth)
    ensures AllAllowed(chain, w, who) && 1 <= |chain| <= FallbackChain.ChainMax(maxDepth)
  {
    FallbackChain.ChainIsAccessible(chain, w, who, requested, maxDepth);
  }

  lemma PrefixAllowed(chain: seq<Model>, candidates: seq<Model>, tried: seq<Model>, w: FallbackChain.World,
                      who: Option<FallbackChain.Caller>)
    requires AllAllowed(chain, w, who) && tried <= candidates && forall m :: m in candidates ==> m in chain
    ensures AllAllowed(tried, w, who)
  {
  }

  // ----- all requests together --------------------------------------------------------------------

  lemma {:induction false} PrefixNeverFumbles(t: Trace, n: nat)
    requires n <= |t| && !GripAfter(t).Fumbled?
    ensures !GripAfter(t[..n]).Fumbled?
    decreases |t|
  {
    if n == |t| {
      assert t[..n] == t;
    } else {
      assert Front(t)[..n] == t[..n];
      PrefixNeverFumbles(Front(t), n);
    }
  }

  /** Calls that neither ask for nor settle a ticket: health reports, resets and the ticketless
      failure of a stream that broke after its response was returned. */
  predicate Background(calls: seq<Call>) {
    forall c :: c in calls ==> !c.CallAcquire? && !Settles(c)
  }

  lemma {:induction false} BackgroundHoldsNothing(calls: seq<Call>)
    requires Background(calls)
    ensures HoldAfter(calls) == Free
  {
    if calls != [] {
      assert Last(calls) in calls;
      BackgroundHoldsNothing(Front(calls));
    }
  }

  /** Each request is background work or has carried out the first `done(r)` actions of a trace the
      handler can produce. */
  ghost predicate RunsHandler(tes: seq<Tagged>, full: nat -> Trace, done: nat -> nat) {
    forall r: nat ::
      || Background(CallsOf(tes, r))
      || (&& done(r) <= |full(r)|
          && GripAfter(full(r)) == Empty
          && CallsOf(tes, r) == Calls(full(r)[..done(r)]))
  }

  /** Whatever the interleaving, requests that run the handler keep the one-ticket discipline, so a
      circuit's load never exceeds the tickets out on it. */
  lemma InterleavedRequests(tes: seq<Tagged>, full: nat -> Trace, done: nat -> nat, key: string)
    requires RunsHandler(tes, full, done)
    ensures Disciplined(tes)
    ensures Current(CircuitRuns.Run(Events(tes)), key).inflight <= |HoldersOf(Holders(tes), key)|
  {
    forall r: nat ensures !HoldAfter(CallsOf(tes, r)).Broken? {
      if Background(CallsOf(tes, r)) {
        BackgroundHoldsNothing(CallsOf(tes, r));
      } else {
        PrefixNeverFumbles(full(r), done(r));
        GripIsHold(full(r)[..done(r)]);
      }
    }
    LoadNeverExceedsTickets(tes, key);
  }

  /** Once every request is over, by whatever exit, no circuit carries any load: not even one that was
      evicted or reset and rebuilt while requests were under way. */
  lemma NoLoadWhenIdle(tes: seq<Tagged>, full: nat -> Trace, done: nat -> nat, key: string)
    requires RunsHandler(tes, full, done) && forall r: nat :: done(r) == |full(r)|
    ensures Current(CircuitRuns.Run(Events(tes)), key).inflight == 0
  {
    InterleavedRequests(tes, full, done, key);
    forall r: nat ensures r !in Holders(tes) {
      HoldersAgree(tes, r);
      if Background(CallsOf(tes, r)) {
        BackgroundHoldsNothing(CallsOf(tes, r));
      } else {
        assert full(r)[..done(r)] == full(r);
        GripIsHold(full(r));
      }
    }
    assert HoldersOf(Holders(tes), key) == {};
  }

  /** The upstream answered the request itself, and not with an error. */
  predicate Credits(u: Upstream) { u.Responded? && !u.cacheHit && u.status < 400 }

  /** The upstream is overloaded and may have said for how long: a 429, or a 503 that was raised. */
  predicate Overloaded(u: Upstream) {
    (u.Responded? && u.status == 429) || (u.HttpError? && (u.status == 429 || u.status == 503))
  }

  /** Only the upstream's own failures count against its circuit, only its own answers close it, and
      anything else leaves all but the load alone, except that a half-open circuit stops waiting for a
      probe whose ticket comes back. A settlement always lowers the load, and a Retry-After is honoured
      only from a 429 or a 503. */
  lemma OnlyBlameCounts(c: Breaker, s: Settings, now: real, key: string, ticket: Ticket, u: Upstream)
    requires ticket != NoTicket
    ensures var after := Apply(c, Stamped(now, s, CircuitRuns.OpOf(Settlement(key, ticket, u))));
            && after.inflight == Max(0, c.inflight - 1)
            && (Blames(u) ==> after.consecutiveFailures == c.consecutiveFailures + 1)
            && (Credits(u) ==> after.consecutiveFailures == 0 && after.phase == Closed)
            && (!Blames(u) && !Credits(u) ==>
                  after == c.(inflight := after.inflight,
                              probeInflight := c.probeInflight && !(ticket == Probe && c.phase == HalfOpen)))
            && (Blames(u) ==>
                  Settlement(key, ticket, u)
                  == CallFailure(key, ticket, if Overloaded(u) then u.retryAfter else None))
  {
    var call := Settlement(key, ticket, u);
    LoadStep(c, Stamped(now, s, CircuitRuns.OpOf(call)));
    CountStep(c, Stamped(now, s, CircuitRuns.OpOf(call)));
  }
}
