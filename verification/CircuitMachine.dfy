/** One circuit breaker: the closed / open / half-open machine that guards a single upstream,
    and what holds over every history of operations on it.

    A circuit's state is the replay of its history. Each history entry carries the clock reading
    and the settings in force when the operation took the registry's lock, so one machine covers
    runs with fixed settings and runs during which the settings are changed. */
module CircuitMachine {
  import opened Prelude

  const PROBE_STALE_SECONDS: real := 120.0
  const WINDOW_MAX_SAMPLES: nat := 512

  datatype Settings = Settings(
    enabled: bool,
    failureThreshold: int,
    rateThreshold: real,
    windowSeconds: real,
    minRequests: int,
    cooldownSeconds: real,
    maxCooldownSeconds: real,
    openOnRetryAfter: bool,
    maxEntries: int)

  datatype Phase = Closed | Open | HalfOpen

  /** What `acquire` hands out; `NoTicket` is the empty string of the callers that hold none. */
  datatype Ticket = NoTicket | Normal | Probe | Forced

  datatype Sample = Sample(at: real, ok: bool)

  datatype Breaker = Breaker(
    phase: Phase,
    consecutiveFailures: nat,
    trips: nat,
    openedAt: real,
    cooldownUntil: real,
    lastFailureAt: real,
    probeInflight: bool,
    probeStarted: real,
    inflight: nat,
    window: seq<Sample>)

  const FRESH: Breaker := Breaker(Closed, 0, 0, 0.0, 0.0, 0.0, false, 0.0, 0, [])

  /** The operations that reach one circuit under the lock. `Failure` carries the Retry-After
      delay of section 10.2.3 of RFC 9110 when the upstream sent one. */
  datatype Op =
    | Acquire
    | Release(ticket: Ticket)
    | Success(ticket: Ticket)
    | Failure(ticket: Ticket, retryAfter: Option<real>)
    | Healthy
    | Unhealthy

  datatype Stamped = Stamped(now: real, cfg: Settings, op: Op)

  type History = seq<Stamped>

  // ----- the machine ------------------------------------------------------------------------

  function CooldownCap(s: Settings): real { MaxReal(s.maxCooldownSeconds, 1.0) }

  function CooldownBase(s: Settings): real { MaxReal(s.cooldownSeconds, 0.1) }

  function FailureThreshold(s: Settings): int { Max(s.failureThreshold, 1) }

  function Pow2(n: nat): real { if n == 0 then 1.0 else 2.0 * Pow2(n - 1) }

  /** The cooldown of the `k`-th trip in a row when the upstream named no Retry-After. */
  function TripCooldown(s: Settings, k: nat): real
    requires k > 0
  {
    MinReal(Ladder(s, if k - 1 <= 16 then k - 1 else 16), CooldownCap(s))
  }

  function Ladder(s: Settings, n: nat): real { CooldownBase(s) * Pow2(n) }

  predicate ProbeBusy(c: Breaker, now: real) {
    c.phase == HalfOpen && c.probeInflight && now - c.probeStarted < PROBE_STALE_SECONDS
  }

  /** An open circuit whose cooldown has passed counts as half-open. */
  function EffectivePhase(c: Breaker, now: real): Phase {
    if c.phase == Open && now >= c.cooldownUntil then HalfOpen else c.phase
  }

  predicate Allows(c: Breaker, s: Settings, now: real) {
    !s.enabled
    || match EffectivePhase(c, now)
       case Closed => true
       case HalfOpen => !ProbeBusy(c, now)
       case Open => false
  }

  /** The samples of a log no older than `horizon`. */
  function InWindow(log: seq<Sample>, horizon: real): seq<Sample> {
    if log == [] then []
    else InWindow(Front(log), horizon) + (if Last(log).at >= horizon then [Last(log)] else [])
  }

  function FailureCount(log: seq<Sample>): nat {
    if log == [] then 0 else FailureCount(Front(log)) + (if Last(log).ok then 0 else 1)
  }

  function Horizon(s: Settings, now: real): real { now - MaxReal(s.windowSeconds, 1.0) }

  predicate RateTripped(s: Settings, log: seq<Sample>, now: real) {
    s.rateThreshold > 0.0
    && var samples := InWindow(log, Horizon(s, now));
       |samples| >= Max(s.minRequests, 1)
       && FailureCount(samples) as real / |samples| as real >= s.rateThreshold
  }

  function Trip(c: Breaker, s: Settings, now: real, retryAfter: Option<real>): Breaker {
    var trips := c.trips + 1;
    var cooldown :=
      if retryAfter.Some? && retryAfter.value > 0.0 then MinReal(retryAfter.value, CooldownCap(s))
      else TripCooldown(s, trips);
    c.(trips := trips, phase := Open, openedAt := now, cooldownUntil := now + cooldown, probeInflight := false)
  }

  function Unload(c: Breaker, ticket: Ticket): Breaker {
    if ticket != NoTicket && c.inflight > 0 then c.(inflight := c.inflight - 1) else c
  }

  /** An open circuit whose cooldown is over becomes half-open when a request asks. */
  function Thaw(c: Breaker, now: real): Breaker {
    if c.phase == Open && now >= c.cooldownUntil then c.(phase := HalfOpen, probeInflight := false) else c
  }

  function AfterAcquire(c: Breaker, s: Settings, now: real): Breaker {
    var loaded := c.(inflight := c.inflight + 1);
    if !s.enabled then loaded
    else
      var t := Thaw(loaded, now);
      if t.phase == HalfOpen && !ProbeBusy(t, now) then t.(probeInflight := true, probeStarted := now) else t
  }

  /** The ticket `acquire` returns. */
  function TicketFor(c: Breaker, s: Settings, now: real): Ticket {
    if !s.enabled then Normal
    else
      var t := Thaw(c, now);
      if t.phase == Closed then Normal
      else if t.phase == HalfOpen && !ProbeBusy(t, now) then Probe
      else Forced
  }

  function AfterRelease(c: Breaker, ticket: Ticket): Breaker {
    var less := if c.inflight > 0 then c.(inflight := c.inflight - 1) else c;
    if ticket == Probe && c.phase == HalfOpen then less.(probeInflight := false) else less
  }

  function AfterSuccess(c: Breaker, ticket: Ticket, now: real): Breaker {
    var counted := Unload(c, ticket).(
      window := LastN(c.window + [Sample(now, true)], WINDOW_MAX_SAMPLES), consecutiveFailures := 0);
    if c.phase == Closed then counted
    else counted.(phase := Closed, trips := 0, probeInflight := false, cooldownUntil := 0.0)
  }

  predicate ShouldTrip(c: Breaker, s: Settings, now: real, retryAfter: Option<real>) {
    match c.phase
    case HalfOpen => true
    case Open => false
    case Closed =>
      || (retryAfter.Some? && retryAfter.value > 0.0 && s.openOnRetryAfter)
      || c.consecutiveFailures >= FailureThreshold(s)
      || RateTripped(s, c.window, now)
  }

  /** The bookkeeping of a failure, whether the breaker is enabled or not. */
  function Counted(c: Breaker, now: real, ticket: Ticket): Breaker {
    Unload(c, ticket).(
      window := LastN(c.window + [Sample(now, false)], WINDOW_MAX_SAMPLES),
      consecutiveFailures := c.consecutiveFailures + 1,
      lastFailureAt := now)
  }

  function AfterFailure(c: Breaker, s: Settings, now: real, ticket: Ticket, retryAfter: Option<real>): Breaker {
    var counted := Counted(c, now, ticket);
    if !s.enabled then counted
    else if ShouldTrip(counted, s, now, retryAfter) then Trip(counted, s, now, retryAfter)
    else if counted.phase == Open && retryAfter.Some? && retryAfter.value != 0.0 then
      counted.(cooldownUntil :=
        MaxReal(counted.cooldownUntil, now + MinReal(retryAfter.value, s.maxCooldownSeconds)))
    else counted
  }

  function AfterHealthy(c: Breaker): Breaker {
    if c.phase == Open then c.(phase := HalfOpen, probeInflight := false) else c
  }

  function AfterUnhealthy(c: Breaker, s: Settings, now: real): Breaker {
    var marked := c.(lastFailureAt := now);
    if c.phase == Open then marked else Trip(marked, s, now, None)
  }

  function Apply(c: Breaker, e: Stamped): Breaker {
    match e.op
    case Acquire => AfterAcquire(c, e.cfg, e.now)
    case Release(t) => AfterRelease(c, t)
    case Success(t) => AfterSuccess(c, t, e.now)
    case Failure(t, ra) => AfterFailure(c, e.cfg, e.now, t, ra)
    case Healthy => AfterHealthy(c)
    case Unhealthy => AfterUnhealthy(c, e.cfg, e.now)
  }

  function Replay(h: History): Breaker {
    if h == [] then FRESH else Apply(Replay(Front(h)), Last(h))
  }

  // ----- histories --------------------------------------------------------------------------

  /** The clock never runs backwards. */
  ghost predicate Clocked(h: History) {
    forall i, j :: 0 <= i <= j < |h| ==> h[i].now <= h[j].now
  }

  /** The breaker stays enabled under one set of settings. */
  ghost predicate Steady(h: History, s: Settings) {
    s.enabled && forall i :: 0 <= i < |h| ==> h[i].cfg == s
  }

  /** Every outcome ever recorded, with no bound on its length. */
  function Outcomes(h: History): seq<Sample> {
    if h == [] then [] else Outcomes(Front(h)) + Recorded(Last(h))
  }

  /** The sample one operation adds to the log, if any. */
  function Recorded(e: Stamped): seq<Sample> {
    match e.op
    case Success(_) => [Sample(e.now, true)]
    case Failure(_, _) => [Sample(e.now, false)]
    case _ => []
  }

  /** The length of the run of failures at the end of a log. */
  function TrailingFailures(log: seq<Sample>): nat {
    if log == [] || Last(log).ok then 0 else TrailingFailures(Front(log)) + 1
  }

  /** How often the circuit went from not-open to open since it was last seen closed. */
  ghost function OpeningsSinceClosed(h: History): nat {
    if h == [] || Replay(h).phase == Closed then 0
    else OpeningsSinceClosed(Front(h)) + (if Opens(Front(h), Last(h)) then 1 else 0)
  }

  /** The step `e` after history `h` opens the circuit. */
  ghost predicate Opens(h: History, e: Stamped) {
    Replay(h).phase != Open && Apply(Replay(h), e).phase == Open
  }

  lemma ReplayStep(h: History, e: Stamped)
    ensures Replay(h + [e]) == Apply(Replay(h), e)
  {
    assert Front(h + [e]) == h;
  }

  // ----- the machine against its outcome log -------------------------------------------------

  /** What the fields of an always-enabled circuit have in common in every phase. */
  ghost predicate Coherent(c: Breaker, s: Settings) {
    && (c.phase == Closed <==> c.trips == 0)
    && (c.phase == Closed ==> c.consecutiveFailures < FailureThreshold(s))
    && (c.probeInflight ==> c.phase == HalfOpen)
  }

  lemma CoherentStep(c: Breaker, e: Stamped)
    requires e.cfg.enabled && Coherent(c, e.cfg)
    ensures Coherent(Apply(c, e), e.cfg)
  {
    match e.op
    case Failure(t, ra) =>
      FailureStep(c, e.cfg, e.now, t, ra);
    case _ =>
  }

  lemma FailureStep(c: Breaker, s: Settings, now: real, t: Ticket, ra: Option<real>)
    requires s.enabled && Coherent(c, s)
    ensures Coherent(AfterFailure(c, s, now, t, ra), s)
  {
  }

  /** The failure counter, under any settings. */
  lemma {:induction false} FailuresMatchLog(h: History)
    ensures Replay(h).consecutiveFailures == TrailingFailures(Outcomes(h))
  {
    if h != [] {
      FailuresMatchLog(Front(h));
      TrailingAppend(Outcomes(Front(h)));
      assert Outcomes(Front(h)) + [] == Outcomes(Front(h));
      CountStep(Replay(Front(h)), Last(h));
    }
  }

  lemma {:induction false} TripsMatchHistory(h: History, s: Settings)
    requires Steady(h, s)
    ensures Replay(h).trips == OpeningsSinceClosed(h)
    ensures Coherent(Replay(h), s)
  {
    if h != [] {
      TripsMatchHistory(Front(h), s);
      CoherentStep(Replay(Front(h)), Last(h));
      CountStep(Replay(Front(h)), Last(h));
    }
  }

  /** The counters of a circuit are functions of its log, and its fields never disagree with
      its phase. */
  lemma CountersMatchLog(h: History, s: Settings)
    requires Steady(h, s)
    ensures Replay(h).consecutiveFailures == TrailingFailures(Outcomes(h))
    ensures Replay(h).trips == OpeningsSinceClosed(h)
    ensures Replay(h).phase == Closed <==> Replay(h).trips == 0
    ensures Replay(h).phase == Closed ==> TrailingFailures(Outcomes(h)) < FailureThreshold(s)
    ensures Replay(h).probeInflight ==> Replay(h).phase == HalfOpen
    ensures h != [] && Replay(Front(h)).phase == Closed ==> Replay(h).phase != HalfOpen
  {
    FailuresMatchLog(h);
    TripsMatchHistory(h, s);
    if h != [] { CountStep(Replay(Front(h)), Last(h)); }
  }

  lemma TrailingAppend(log: seq<Sample>)
    ensures forall at :: TrailingFailures(log + [Sample(at, true)]) == 0
    ensures forall at :: TrailingFailures(log + [Sample(at, false)]) == TrailingFailures(log) + 1
  {
    forall x: Sample ensures Front(log + [x]) == log { }
  }

  /** One step's effect on the two counters. */
  lemma CountStep(c: Breaker, e: Stamped)
    ensures e.op.Success? ==> Apply(c, e).consecutiveFailures == 0
    ensures e.op.Failure? ==> Apply(c, e).consecutiveFailures == c.consecutiveFailures + 1
    ensures !e.op.Success? && !e.op.Failure? ==> Apply(c, e).consecutiveFailures == c.consecutiveFailures
    ensures c.phase != Open && Apply(c, e).phase == Open ==> Apply(c, e).trips == c.trips + 1
    ensures c.phase != Closed && Apply(c, e).phase == Closed ==> Apply(c, e).trips == 0
    ensures Apply(c, e).phase == c.phase || Apply(c, e).phase == HalfOpen ==> Apply(c, e).trips == c.trips
    ensures c.phase == Closed ==> Apply(c, e).phase != HalfOpen
  {
  }

  // ----- when a circuit opens, half-opens and closes ------------------------------------------

  /** The positions of the outcomes since `since`, and of the failures among them. */
  function Seen(log: seq<Sample>, since: real): set<nat> {
    set i: nat | i < |log| && log[i].at >= since
  }

  function Bad(log: seq<Sample>, since: real): set<nat> {
    set i: nat | i < |log| && log[i].at >= since && !log[i].ok
  }

  /** The start of the sliding window that ends now. */
  function Since(s: Settings, now: real): real { now - MaxReal(s.windowSeconds, 1.0) }

  /** There are enough outcomes in the window, and the threshold's share of them or more are failures. */
  predicate RateOver(log: seq<Sample>, s: Settings, now: real) {
    && s.rateThreshold > 0.0
    && |Seen(log, Since(s, now))| >= Max(s.minRequests, 1)
    && IsShare(|Bad(log, Since(s, now))|, |Seen(log, Since(s, now))|, s.rateThreshold)
  }

  predicate IsShare(part: nat, whole: nat, share: real) { part as real >= share * whole as real }

  lemma {:induction false} WindowCounts(log: seq<Sample>, since: real)
    ensures |InWindow(log, since)| == |Seen(log, since)|
    ensures FailureCount(InWindow(log, since)) == |Bad(log, since)|
  {
    if log == [] {
      assert Seen(log, since) == {} && Bad(log, since) == {};
    } else {
      WindowCounts(Front(log), since);
      SeenSnoc(log, since);
      BadSnoc(log, since);
      FailureCountSnoc(InWindow(Front(log), since), Last(log));
    }
  }

  lemma SeenSnoc(log: seq<Sample>, since: real)
    requires log != []
    ensures |Seen(log, since)| == |Seen(Front(log), since)| + (if Last(log).at >= since then 1 else 0)
  {
    assert Seen(log, since) == Seen(Front(log), since) + (if Last(log).at >= since then {|log| - 1} else {});
  }

  lemma BadSnoc(log: seq<Sample>, since: real)
    requires log != []
    ensures |Bad(log, since)|
         == |Bad(Front(log), since)| + (if Last(log).at >= since && !Last(log).ok then 1 else 0)
  {
    assert Bad(log, since)
        == Bad(Front(log), since) + (if Last(log).at >= since && !Last(log).ok then {|log| - 1} else {});
  }

  lemma FailureCountSnoc(log: seq<Sample>, x: Sample)
    ensures FailureCount(log + [x]) == FailureCount(log) + (if x.ok then 0 else 1)
    ensures log + [] == log
  {
    assert Front(log + [x]) == log;
  }

  lemma ShareOf(part: real, whole: real, share: real)
    requires whole > 0.0
    ensures part / whole >= share <==> part >= share * whole
  {
    var q := part / whole;
    assert part == q * whole;
    if q >= share {
      assert (q - share) * whole >= 0.0;
    } else {
      assert (share - q) * whole > 0.0;
    }
  }

  /** The rule of the code on the counts of a window, and the rule without division. */
  lemma RateOfCounts(samples: nat, failures: nat, share: real)
    requires samples >= 1
    ensures failures as real / samples as real >= share <==> IsShare(failures, samples, share)
  {
    ShareOf(failures as real, samples as real, share);
  }

  /** The rate rule compares the share of failures among the outcomes in the window with the threshold. */
  lemma RateIsShare(log: seq<Sample>, s: Settings, now: real)
    ensures RateTripped(s, log, now) <==> RateOver(log, s, now)
  {
    var samples := InWindow(log, Since(s, now));
    WindowCounts(log, Since(s, now));
    if |samples| >= 1 {
      RateOfCounts(|samples|, FailureCount(samples), s.rateThreshold);
    }
  }

  /** A failure a closed circuit does not bear, in terms of everything ever recorded on it: it carries a
      Retry-After the settings say to honour, or completes enough failures in a row, or lifts the failure
      rate of the outcomes in the window to the threshold. */
  ghost predicate Overwhelms(h: History, e: Stamped)
    requires e.op.Failure?
  {
    || (e.cfg.openOnRetryAfter && e.op.retryAfter.Some? && e.op.retryAfter.value > 0.0)
    || TrailingFailures(Outcomes(h + [e])) >= Max(e.cfg.failureThreshold, 1)
    || RateOver(Outcomes(h + [e]), e.cfg, e.now)
  }

  /** At most 512 outcomes lie in the window, as many as are remembered. */
  ghost predicate WindowHolds(h: History, e: Stamped) {
    |Seen(Outcomes(h + [e]), Since(e.cfg, e.now))| <= 512
  }

  /** When a failure opens a closed circuit, under whatever settings it came to be as it is. */
  lemma FailureOpensIff(h: History, e: Stamped)
    requires e.cfg.enabled && Clocked(h + [e]) && e.op.Failure? && Replay(h).phase == Closed && WindowHolds(h, e)
    ensures Replay(h + [e]).phase == Open <==> Overwhelms(h, e)
  {
    ReplayStep(h, e);
    FailuresMatchLog(h + [e]);
    RateAfter(h + [e], e.cfg, e.now);
    FailureWindow(Replay(h), e);
  }

  /** The rate rule on the samples kept is the one on everything recorded. */
  lemma RateAfter(h: History, s: Settings, now: real)
    requires Clocked(h) && |Seen(Outcomes(h), Since(s, now))| <= WINDOW_MAX_SAMPLES
    ensures RateTripped(s, Replay(h).window, now) <==> RateOver(Outcomes(h), s, now)
  {
    var log := Outcomes(h);
    assert |InWindow(log, Horizon(s, now))| <= WINDOW_MAX_SAMPLES by {
      WindowCounts(log, Since(s, now));
    }
    WindowRefinesLog(h, s, now);
    RateIsShare(log, s, now);
  }

  /** What opens a circuit: an unhealthy report, or a failure when it is half-open or overwhelmed. */
  ghost predicate OpenedBy(h: History, e: Stamped) {
    && Replay(h).phase != Open
    && (|| e.op.Unhealthy?
        || (e.op.Failure? && e.cfg.enabled && (Replay(h).phase == HalfOpen || Overwhelms(h, e))))
  }

  /** What makes an open circuit half-open: a healthy report, or a request once the cooldown is over. */
  ghost predicate ThawedBy(h: History, e: Stamped) {
    && Replay(h).phase == Open
    && (e.op.Healthy? || (e.op.Acquire? && e.cfg.enabled && e.now >= Replay(h).cooldownUntil))
  }

  /** The phase of a circuit after any operation, in whatever state any history left it: it closes on a
      success only, opens and half-opens as above, and stays as it was otherwise. A failed probe sends it
      back to open. */
  lemma PhaseAfter(h: History, e: Stamped)
    requires Clocked(h + [e]) && (Replay(h).phase == Closed && e.op.Failure? ==> WindowHolds(h, e))
    ensures Replay(h + [e]).phase ==
      if e.op.Success? then Closed
      else if OpenedBy(h, e) then Open
      else if ThawedBy(h, e) then HalfOpen
      else Replay(h).phase
    ensures OpenedBy(h, e) ==> Replay(h + [e]).trips == Replay(h).trips + 1
  {
    ReplayStep(h, e);
    CountStep(Replay(h), e);
    if e.cfg.enabled && e.op.Failure? && Replay(h).phase == Closed {
      FailureOpensIff(h, e);
    }
    PhaseStep(Replay(h), e);
  }

  lemma PhaseStep(c: Breaker, e: Stamped)
    ensures e.op.Success? ==> Apply(c, e).phase == Closed
    ensures e.op.Unhealthy? ==> Apply(c, e).phase == Open
    ensures e.op.Failure? && e.cfg.enabled && c.phase == HalfOpen ==> Apply(c, e).phase == Open
    ensures e.op.Failure? && (!e.cfg.enabled || c.phase == Open) ==> Apply(c, e).phase == c.phase
    ensures e.op.Failure? && c.phase == Closed ==> Apply(c, e).phase != HalfOpen
    ensures e.op.Healthy? ==> Apply(c, e).phase == if c.phase == Open then HalfOpen else c.phase
    ensures e.op.Release? ==> Apply(c, e).phase == c.phase
    ensures var thaws := c.phase == Open && e.cfg.enabled && e.now >= c.cooldownUntil;
            e.op.Acquire? ==> Apply(c, e).phase == if thaws then HalfOpen else c.phase
  {
  }

  lemma FailureWindow(c: Breaker, e: Stamped)
    requires e.cfg.enabled && e.op.Failure? && c.phase == Closed
    ensures Apply(c, e).phase == Open <==>
              || (e.cfg.openOnRetryAfter && e.op.retryAfter.Some? && e.op.retryAfter.value > 0.0)
              || Apply(c, e).consecutiveFailures >= FailureThreshold(e.cfg)
              || RateTripped(e.cfg, Apply(c, e).window, e.now)
  {
  }

  /** A closed circuit bears no trace of having been open, however it was closed. */
  lemma {:induction false} ClosedIsClean(h: History)
    requires Replay(h).phase == Closed
    ensures var c := Replay(h); c.trips == 0 && c.cooldownUntil == 0.0 && !c.probeInflight
  {
    if h != [] {
      PhaseStep(Replay(Front(h)), Last(h));
      if Replay(Front(h)).phase == Closed { ClosedIsClean(Front(h)); }
    }
  }

  /** A success closes a circuit from any phase, and nothing else does. */
  lemma ClosesIffSuccess(h: History, e: Stamped)
    requires Replay(h).phase != Closed
    ensures Replay(h + [e]).phase == Closed <==> e.op.Success?
  {
    ReplayStep(h, e);
  }

  /** Under any enabled settings a circuit can be closed at the very instant it was opened, without ever
      being half-open. */
  lemma OpenCanCloseDirectly(s: Settings)
    requires s.enabled
    ensures Replay([Stamped(0.0, s, Unhealthy)]).phase == Open
    ensures Replay([Stamped(0.0, s, Unhealthy), Stamped(0.0, s, Success(NoTicket))]).phase == Closed
  {
    var h := [Stamped(0.0, s, Unhealthy)];
    assert Front(h) == [];
    assert h + [Stamped(0.0, s, Success(NoTicket))] == [Stamped(0.0, s, Unhealthy), Stamped(0.0, s, Success(NoTicket))];
    ClosesIffSuccess(h, Stamped(0.0, s, Success(NoTicket)));
  }

  // ----- cooldowns --------------------------------------------------------------------------

  lemma {:induction false} Pow2Monotone(m: nat, n: nat)
    requires m <= n
    ensures 1.0 <= Pow2(m) <= Pow2(n)
    decreases n
  {
    if m < n {
      Pow2Monotone(m, n - 1);
    } else if n > 0 {
      Pow2Monotone(n - 1, n - 1);
    }
  }

  lemma LadderMonotone(s: Settings, m: nat, n: nat)
    requires m <= n
    ensures 0.1 <= Ladder(s, m) <= Ladder(s, n)
  {
    Pow2Monotone(0, m);
    Pow2Monotone(m, n);
    ScaleMonotone(CooldownBase(s), 1.0, Pow2(m));
    ScaleMonotone(CooldownBase(s), Pow2(m), Pow2(n));
  }

  lemma TripCooldownMonotone(s: Settings, k: nat, l: nat)
    requires 0 < k <= l
    ensures 0.1 <= TripCooldown(s, k) <= TripCooldown(s, l) <= CooldownCap(s)
  {
    LadderMonotone(s, if k - 1 <= 16 then k - 1 else 16, if l - 1 <= 16 then l - 1 else 16);
  }

  lemma ScaleMonotone(a: real, x: real, y: real)
    requires a >= 0.0 && x <= y
    ensures a * x <= a * y
  {
    assert a * (y - x) >= 0.0;
  }

  /** The ladder in full: the first trip costs the configured cooldown, each of the next sixteen twice the
      one before, and none more than the configured maximum, where a tenth of a second and a second are
      the least of either. */
  lemma LadderLaw(s: Settings, k: nat)
    requires k > 0
    ensures var cap := MaxReal(s.maxCooldownSeconds, 1.0);
            && TripCooldown(s, 1) == MinReal(MaxReal(s.cooldownSeconds, 0.1), cap)
            && TripCooldown(s, k + 1) == if k <= 16 then MinReal(2.0 * TripCooldown(s, k), cap) else TripCooldown(s, k)
  {
    assert Pow2(0) == 1.0;
    if k <= 16 {
      assert Ladder(s, k) == 2.0 * Ladder(s, k - 1) by { assert Pow2(k) == 2.0 * Pow2(k - 1); }
      LadderMonotone(s, k - 1, k - 1);
    }
  }

  /** While a circuit stays open its cooldown only changes when a request forced through it fails with a
      newer Retry-After: then it covers that as well, up to the configured maximum, and never shrinks. */
  lemma OpenKeepsCooldown(h: History, e: Stamped)
    requires Replay(h).phase == Open && Replay(h + [e]).phase == Open
    ensures var was, until := Replay(h).cooldownUntil, Replay(h + [e]).cooldownUntil;
            if e.op.Failure? && e.cfg.enabled && e.op.retryAfter.Some? && e.op.retryAfter.value != 0.0 then
              var asked := e.now + MinReal(e.op.retryAfter.value, e.cfg.maxCooldownSeconds);
              until >= was && until >= asked && (until == was || until == asked)
            else until == was
  {
    ReplayStep(h, e);
  }

  /** The `k`-th trip since the circuit was last closed, with no positive Retry-After, holds
      traffic for the `k`-th step of the doubling ladder; a Retry-After holds it for that
      long, up to the cap. */
  lemma TripSetsLadderCooldown(h: History, e: Stamped, s: Settings)
    requires Steady(h + [e], s) && Opens(h, e)
    ensures var k := OpeningsSinceClosed(h + [e]);
            var c := Replay(h + [e]);
            && k > 0
            && c.openedAt == e.now
            && c.cooldownUntil == e.now + OpeningCooldown(e, k)
  {
    CountersMatchLog(h + [e], s);
    ReplayStep(h, e);
    assert (h + [e])[|h|] == e;
    OpeningSets(Replay(h), e);
  }

  /** What an opening step does to the fields of any circuit. */
  lemma OpeningSets(c: Breaker, e: Stamped)
    requires c.phase != Open && Apply(c, e).phase == Open
    ensures Apply(c, e).trips == c.trips + 1 && Apply(c, e).openedAt == e.now
    ensures Apply(c, e).cooldownUntil == e.now + OpeningCooldown(e, c.trips + 1)
  {
  }

  /** How long an opening step holds traffic when it is the `k`-th in a row. */
  function OpeningCooldown(e: Stamped, k: nat): real
    requires k > 0
  {
    if e.op.Failure? && e.op.retryAfter.Some? && e.op.retryAfter.value > 0.0
    then MinReal(e.op.retryAfter.value, MaxReal(e.cfg.maxCooldownSeconds, 1.0))
    else TripCooldown(e.cfg, k)
  }

  /** No cooldown and no probe outlives the last operation by more than the cap. */
  lemma {:induction false} CooldownBounded(h: History, s: Settings)
    requires h != [] && Steady(h, s) && Clocked(h)
    ensures Replay(h).phase == Open ==> Replay(h).cooldownUntil <= Last(h).now + CooldownCap(s)
    ensures Replay(h).probeInflight ==> Replay(h).probeStarted <= Last(h).now
  {
    var c, e := Replay(Front(h)), Last(h);
    if |h| > 1 {
      CooldownBounded(Front(h), s);
      assert Front(h)[|h| - 2].now <= e.now;
    }
    BoundStep(c, e, e.now);
  }

  lemma BoundStep(c: Breaker, e: Stamped, t: real)
    requires e.now == t && e.cfg.enabled
    requires c.phase == Open ==> c.cooldownUntil <= t + CooldownCap(e.cfg)
    requires c.probeInflight ==> c.probeStarted <= t
    ensures Apply(c, e).phase == Open ==> Apply(c, e).cooldownUntil <= t + CooldownCap(e.cfg)
    ensures Apply(c, e).probeInflight ==> Apply(c, e).probeStarted <= t
  {
    if c.phase != Open { TripCooldownMonotone(e.cfg, c.trips + 1, c.trips + 1); }
  }

  /** `allows` predicts `acquire`: it says yes exactly when the ticket is not "forced". */
  lemma AllowsPredictsTicket(c: Breaker, s: Settings, now: real)
    ensures Allows(c, s, now) <==> TicketFor(c, s, now) != Forced
  {
  }

  /** Bounded recovery: left alone for the longest cooldown and the probe timeout, a circuit
      admits the next request, whatever happened to it before. */
  lemma RecoversWhenLeftAlone(h: History, s: Settings, now: real)
    requires Steady(h, s) && Clocked(h)
    requires h != [] ==> now >= Last(h).now + MaxReal(CooldownCap(s), PROBE_STALE_SECONDS)
    ensures Allows(Replay(h), s, now) && TicketFor(Replay(h), s, now) != Forced
  {
    if h != [] {
      CooldownBounded(h, s);
    }
    AllowsPredictsTicket(Replay(h), s, now);
  }

  /** The other direction of recovery: once opened, a circuit turns every request away (or
      forces it) until its cooldown ends, unless a success or a healthy probe comes first. */
  lemma BlockedWhileCooling(h: History, e: Stamped, mid: History, s: Settings, now: real)
    requires Steady(h + [e], s) && Opens(h, e)
    requires forall i :: 0 <= i < |mid| ==>
               !mid[i].op.Success? && !mid[i].op.Healthy? && mid[i].now < Replay(h + [e]).cooldownUntil
    requires now < Replay(h + [e]).cooldownUntil
    ensures Replay(h + [e] + mid).phase == Open
    ensures TicketFor(Replay(h + [e] + mid), s, now) == Forced
  {
    ReplayStep(h, e);
    HoldsCooldown(h + [e], mid);
  }

  lemma {:induction false} HoldsCooldown(h: History, mid: History)
    requires Replay(h).phase == Open
    requires forall i :: 0 <= i < |mid| ==>
               !mid[i].op.Success? && !mid[i].op.Healthy? && mid[i].now < Replay(h).cooldownUntil
    ensures Replay(h + mid).phase == Open
    ensures Replay(h + mid).cooldownUntil >= Replay(h).cooldownUntil
  {
    if mid == [] {
      assert h + mid == h;
    } else {
      HoldsCooldown(h, Front(mid));
      assert h + mid == (h + Front(mid)) + [Last(mid)];
      ReplayStep(h + Front(mid), Last(mid));
      StaysOpen(Replay(h + Front(mid)), Last(mid));
    }
  }

  lemma StaysOpen(c: Breaker, e: Stamped)
    requires c.phase == Open && e.now < c.cooldownUntil && !e.op.Success? && !e.op.Healthy?
    ensures Apply(c, e).phase == Open && Apply(c, e).cooldownUntil >= c.cooldownUntil
  {
  }

  // ----- probes -----------------------------------------------------------------------------

  /** While a circuit stays half-open, a probe is forgotten only when a probe ticket is released. */
  lemma HalfOpenStep(c: Breaker, e: Stamped)
    requires c.phase == HalfOpen && Apply(c, e).phase == HalfOpen && c.probeInflight
    requires e.op != Release(Probe)
    ensures Apply(c, e).probeInflight
    ensures Apply(c, e).probeStarted == c.probeStarted || Apply(c, e).probeStarted == e.now
  {
  }

  /** The step `e` after history `h` gets the probe ticket. */
  ghost predicate Grants(h: History, e: Stamped) {
    e.op.Acquire? && TicketFor(Replay(h), e.cfg, e.now) == Probe
  }

  /** When the probe that is out was granted: the last one since the circuit became half-open, unless a
      probe ticket was released since. */
  ghost function ProbeOut(h: History): Option<real> {
    if h == [] || Replay(h).phase != HalfOpen then None
    else if Grants(Front(h), Last(h)) then Some(Last(h).now)
    else if Last(h).op == Release(Probe) || Replay(Front(h)).phase != HalfOpen then None
    else ProbeOut(Front(h))
  }

  lemma {:induction false} ProbeMatchesHistory(h: History)
    ensures Replay(h).probeInflight <==> ProbeOut(h).Some?
    ensures ProbeOut(h).Some? ==> Replay(h).probeStarted == ProbeOut(h).value
  {
    if h != [] {
      ProbeMatchesHistory(Front(h));
      ProbeStep(Replay(Front(h)), Last(h));
    }
  }

  lemma ProbeStep(c: Breaker, e: Stamped)
    requires c.probeInflight ==> c.phase == HalfOpen
    ensures var after := Apply(c, e);
            if after.phase != HalfOpen then !after.probeInflight
            else if e.op.Acquire? && TicketFor(c, e.cfg, e.now) == Probe then
              after.probeInflight && after.probeStarted == e.now
            else if e.op == Release(Probe) || c.phase != HalfOpen then !after.probeInflight
            else after.probeInflight == c.probeInflight && after.probeStarted == c.probeStarted
  {
  }

  /** A probe granted less than two minutes ago is out. */
  ghost predicate ProbeHeld(h: History, now: real) {
    Replay(h).phase == HalfOpen && ProbeOut(h).Some? && now - ProbeOut(h).value < 120.0
  }

  /** The ticket of a request after any history: normal if the breaker is disabled or the circuit closed;
      forced while its cooldown runs, or while it is half-open and a probe granted less than two minutes ago
      is out; the probe otherwise. */
  lemma TicketIff(h: History, s: Settings, now: real)
    ensures var c, ticket := Replay(h), TicketFor(Replay(h), s, now);
            && ticket != NoTicket
            && (ticket == Normal <==> !s.enabled || c.phase == Closed)
            && (ticket == Forced <==> s.enabled && ((c.phase == Open && now < c.cooldownUntil) || ProbeHeld(h, now)))
  {
    ProbeMatchesHistory(h);
  }

  /** When the circuit last got into trouble: the last failure or unhealthy report, or zero. */
  function LastTrouble(h: History): real {
    if h == [] then 0.0
    else if Last(h).op.Failure? || Last(h).op.Unhealthy? then Last(h).now
    else LastTrouble(Front(h))
  }

  /** What selection goes by when every circuit is open. */
  lemma {:induction false} LastFailureMatchesLog(h: History)
    ensures Replay(h).lastFailureAt == LastTrouble(h)
  {
    if h != [] { LastFailureMatchesLog(Front(h)); }
  }

  // ----- the bounded window against the unbounded log -------------------------------------------

  lemma {:induction false} WindowIsLogSuffix(h: History)
    ensures Replay(h).window == LastN(Outcomes(h), 512)
  {
    if h != [] {
      WindowIsLogSuffix(Front(h));
      var log := Outcomes(Front(h));
      WindowStep(Replay(Front(h)), Last(h));
      if Recorded(Last(h)) == [] {
        assert log + [] == log;
      } else {
        LastNAppend(log, Recorded(Last(h))[0], WINDOW_MAX_SAMPLES);
      }
    }
  }

  lemma WindowStep(c: Breaker, e: Stamped)
    ensures Recorded(e) == [] ==> Apply(c, e).window == c.window
    ensures Recorded(e) != [] ==> Apply(c, e).window == LastN(c.window + Recorded(e), WINDOW_MAX_SAMPLES)
  {
  }

  ghost predicate Ascending(log: seq<Sample>) {
    forall i, j :: 0 <= i <= j < |log| ==> log[i].at <= log[j].at
  }

  lemma {:induction false} OutcomesAscend(h: History)
    requires Clocked(h)
    ensures Ascending(Outcomes(h))
    ensures forall x :: x in Outcomes(h) ==> h != [] && x.at <= Last(h).now
  {
    if h != [] {
      OutcomesAscend(Front(h));
      if |h| > 1 { assert Last(Front(h)) == h[|h| - 2]; }
      AscendAppend(Outcomes(Front(h)), Recorded(Last(h)), Last(h).now);
    }
  }

  lemma AscendAppend(log: seq<Sample>, more: seq<Sample>, now: real)
    requires Ascending(log) && |more| <= 1
    requires forall x :: x in log ==> x.at <= now
    requires forall x :: x in more ==> x.at == now
    ensures Ascending(log + more)
    ensures forall x :: x in log + more ==> x.at <= now
  {
    forall i, j | 0 <= i <= j < |log + more| ensures (log + more)[i].at <= (log + more)[j].at {
      if j == |log| {
        assert (log + more)[j] == more[0];
        assert i < |log| ==> log[i] in log;
      }
    }
  }

  lemma {:induction false} InWindowConcat(a: seq<Sample>, b: seq<Sample>, horizon: real)
    ensures InWindow(a + b, horizon) == InWindow(a, horizon) + InWindow(b, horizon)
  {
    if b == [] {
      assert a + b == a;
    } else {
      InWindowConcat(a, Front(b), horizon);
      InWindowSnoc(a + Front(b), Last(b), horizon);
      assert (a + Front(b)) + [Last(b)] == a + b;
    }
  }

  lemma InWindowSnoc(log: seq<Sample>, x: Sample, horizon: real)
    ensures InWindow(log + [x], horizon) == InWindow(log, horizon) + (if x.at >= horizon then [x] else [])
  {
    assert Front(log + [x]) == log;
  }

  lemma {:induction false} InWindowAll(a: seq<Sample>, horizon: real)
    ensures (forall x :: x in a ==> x.at >= horizon) ==> InWindow(a, horizon) == a
    ensures (forall x :: x in a ==> x.at < horizon) ==> InWindow(a, horizon) == []
    ensures InWindow(a, horizon) == [] ==> forall x :: x in a ==> x.at < horizon
  {
    if a != [] {
      InWindowAll(Front(a), horizon);
      assert a == Front(a) + [Last(a)];
    }
  }

  /** The 512-sample deque decides as a scan of every outcome ever recorded, as long as no more
      than 512 of them lie in the window. */
  lemma WindowRefinesLog(h: History, s: Settings, now: real)
    requires Clocked(h)
    requires |InWindow(Outcomes(h), Horizon(s, now))| <= WINDOW_MAX_SAMPLES
    ensures InWindow(Replay(h).window, Horizon(s, now)) == InWindow(Outcomes(h), Horizon(s, now))
    ensures RateTripped(s, Replay(h).window, now) <==> RateTripped(s, Outcomes(h), now)
  {
    WindowIsLogSuffix(h);
    OutcomesAscend(h);
    RecentIsEnough(Outcomes(h), Horizon(s, now));
    SameWindowSameVerdict(s, Replay(h).window, Outcomes(h), now);
  }

  lemma SameWindowSameVerdict(s: Settings, a: seq<Sample>, b: seq<Sample>, now: real)
    requires InWindow(a, Horizon(s, now)) == InWindow(b, Horizon(s, now))
    ensures RateTripped(s, a, now) <==> RateTripped(s, b, now)
  {
  }

  /** The last 512 samples of an ascending log hold all of its window, if no more than 512 lie in it. */
  lemma RecentIsEnough(log: seq<Sample>, horizon: real)
    requires Ascending(log) && |InWindow(log, horizon)| <= WINDOW_MAX_SAMPLES
    ensures InWindow(LastN(log, WINDOW_MAX_SAMPLES), horizon) == InWindow(log, horizon)
  {
    if |log| > WINDOW_MAX_SAMPLES {
      var cut := |log| - WINDOW_MAX_SAMPLES;
      if log[cut - 1].at >= horizon {
        CrowdedWindow(log, horizon, cut);
      }
      assert log == log[..cut] + log[cut..];
      InWindowConcat(log[..cut], log[cut..], horizon);
      InWindowAll(log[..cut], horizon);
    }
  }

  /** If a sample before position `cut` is in the window, so is everything from `cut` on. */
  lemma CrowdedWindow(log: seq<Sample>, horizon: real, cut: nat)
    requires Ascending(log) && 0 < cut <= |log| && log[cut - 1].at >= horizon
    ensures |InWindow(log, horizon)| > |log| - cut
  {
    assert log == log[..cut - 1] + log[cut - 1..];
    InWindowConcat(log[..cut - 1], log[cut - 1..], horizon);
    InWindowAll(log[cut - 1..], horizon);
  }
}
