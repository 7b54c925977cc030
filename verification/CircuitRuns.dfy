/** What holds over every run of the circuit registry: any number of callers, keys and health
    reports, each passing through the lock in some order. */
module CircuitRuns {
  import opened Prelude
  import opened CircuitMachine
  import opened CircuitStore

  function Run(evs: seq<Event>): (st: Store)
    ensures StoreOk(st)
  {
    if evs == [] then EMPTY else Step(Run(Front(evs)), Last(evs))
  }

  ghost predicate ClockedRun(evs: seq<Event>) {
    forall i, j :: 0 <= i <= j < |evs| ==> evs[i].now <= evs[j].now
  }

  ghost predicate SteadyRun(evs: seq<Event>, s: Settings) {
    s.enabled && forall i :: 0 <= i < |evs| ==> evs[i].cfg == s
  }

  lemma RunStep(evs: seq<Event>, ev: Event)
    ensures Run(evs + [ev]) == Step(Run(evs), ev)
  {
    assert Front(evs + [ev]) == evs;
  }

  // ----- the effect of one event ----------------------------------------------------------------

  /** The operation an event applies to the circuits it reaches. */
  function OpOf(call: Call): Op {
    match call
    case CallAcquire(_, _) => Acquire
    case CallRelease(_, t) => Release(t)
    case CallSuccess(_, t) => Success(t)
    case CallFailure(_, t, ra) => Failure(t, ra)
    case CallHealth(_, _, healthy) => if healthy then Healthy else Unhealthy
    case CallReset => Unhealthy
  }

  function StampOf(ev: Event): Stamped { Stamped(ev.now, ev.cfg, OpOf(ev.call)) }

  /** The event operates on this circuit (creating it if need be). */
  ghost predicate Reaches(st: Store, ev: Event, key: string)
    requires StoreOk(st)
  {
    match ev.call
    case CallAcquire(k, _) => k == key
    case CallRelease(k, _) => k == key && key in st.entries
    case CallSuccess(k, _) => k == key
    case CallFailure(k, _, _) => k == key
    case CallHealth(model, baseUrl, healthy) =>
      var target := StripSlashes(baseUrl);
      var keys := HealthKeys(st, model, target, 0);
      ev.cfg.enabled && (key in keys || (keys == [] && !healthy && key == CircuitKey(model, "", target)))
    case CallReset => false
  }

  /** An event extends the history of the circuits it reaches by its own operation and leaves
      every other surviving circuit as it was. */
  lemma StepEffect(st: Store, ev: Event, key: string)
    requires StoreOk(st) && key in Step(st, ev).entries
    ensures var r := Step(st, ev).entries[key];
            if Reaches(st, ev, key)
            then r == Extend(if key in st.entries then st.entries[key] else NewEntry(r.meta), StampOf(ev))
            else key in st.entries && r == st.entries[key]
  {
    match ev.call
    case CallHealth(_, _, _) => HealthEffect(st, ev, key);
    case _ =>
  }

  lemma HealthEffect(st: Store, ev: Event, key: string)
    requires StoreOk(st) && ev.call.CallHealth? && key in Step(st, ev).entries
    ensures var r := Step(st, ev).entries[key];
            if Reaches(st, ev, key)
            then r == Extend(if key in st.entries then st.entries[key] else NewEntry(r.meta), StampOf(ev))
            else key in st.entries && r == st.entries[key]
  {
    var keys := HealthKeys(st, ev.call.model, StripSlashes(ev.call.baseUrl), 0);
    if ev.cfg.enabled && keys != [] {
      RecordEachEffect(st, keys, StampOf(ev), key);
    }
  }

  lemma {:induction false} RecordEachEffect(st: Store, keys: seq<string>, e: Stamped, key: string)
    requires NoDup(keys) && key in st.entries
    ensures RecordEach(st, keys, e).entries[key]
         == if key in keys then Extend(st.entries[key], e) else st.entries[key]
  {
    if keys != [] {
      var front := Front(keys);
      assert keys == front + [Last(keys)];
      assert forall i :: 0 <= i < |front| ==> front[i] == keys[i];
      assert Last(keys) !in front;
      RecordEachEffect(st, front, e, key);
    }
  }

  /** Whom a health report concerns: the known circuits of its model, at its address if it names one;
      without any, an unhealthy one concerns the circuit of the model and the address alone. A disabled
      breaker takes no reports. */
  lemma HealthReachesIff(st: Store, now: real, cfg: Settings, model: string, target: string, healthy: bool, key: string)
    requires StoreOk(st) && StripSlashes(target) == target
    ensures var known := set k | k in st.entries && st.entries[k].meta.model == model
                                  && (target == "" || st.entries[k].meta.baseUrl == target);
            Reaches(st, Event(now, cfg, CallHealth(model, target, healthy)), key) <==>
              cfg.enabled && (key in known || (known == {} && !healthy && key == model + [SEP, SEP] + target))
  {
    var keys := HealthKeys(st, model, target, 0);
    var known := set k | k in st.entries && st.entries[k].meta.model == model
                          && (target == "" || st.entries[k].meta.baseUrl == target);
    assert st.order[0..] == st.order;
    assert forall k :: k in known <==> k in keys;
    assert keys == [] <==> known == {} by {
      if keys != [] { assert keys[0] in known; }
    }
    assert CircuitKey(model, "", target) == model + [SEP, SEP] + target;
  }

  // ----- which circuits are there ---------------------------------------------------------------

  /** The circuit an event looks up and would create, and its identity. */
  function LooksUp(st: Store, ev: Event): Option<(string, Meta)>
    requires StoreOk(st)
  {
    match ev.call
    case CallAcquire(k, meta) => Some((k, meta))
    case CallSuccess(k, _) => Some((k, KeyMeta(k)))
    case CallFailure(k, _, _) => Some((k, KeyMeta(k)))
    case CallHealth(model, baseUrl, healthy) =>
      var target := StripSlashes(baseUrl);
      var key := CircuitKey(model, "", target);
      if ev.cfg.enabled && !healthy && HealthKeys(st, model, target,
                                                  0) == [] then Some((key, MetaFor(key, model, "", target)))
      else None
    case _ => None
  }

  /** Exactly which circuits an event leaves in the registry: none after a reset, those that were there if
      it looks up a known circuit or none at all, and otherwise those of them, and the new one, that survive
      the eviction down to the limit. */
  lemma PresentIff(st: Store, ev: Event, key: string)
    requires StoreOk(st)
    ensures key in Step(st, ev).entries <==>
              !ev.call.CallReset?
              && match LooksUp(st, ev)
                 case None => key in st.entries
                 case Some(l) =>
                   if l.0 in st.entries then key in st.entries
                   else exists i: nat :: SurvivesAt(Grown(st, l.0, l.1), Max(ev.cfg.maxEntries, 16), i, key)
  {
    var l := LooksUp(st, ev);
    if l.Some? {
      LookedUp(st, ev, l.value.0, l.value.1);
      if l.value.0 !in st.entries {
        PresentAfterGrowth(Grown(st, l.value.0, l.value.1), Max(ev.cfg.maxEntries, 16), key);
      }
    }
  }

  /** The registry with a new circuit, before anything is evicted. */
  function Grown(st: Store, key: string, meta: Meta): Store {
    Store(st.order + [key], st.entries[key := NewEntry(meta)])
  }

  ghost predicate SurvivesAt(st: Store, limit: nat, i: nat, key: string) {
    StoreOk(st) && i < |st.order| && st.order[i] == key && Survives(st, limit, i)
  }

  lemma LookedUp(st: Store, ev: Event, key: string, meta: Meta)
    requires StoreOk(st) && LooksUp(st, ev) == Some((key, meta))
    ensures var after := Step(st, ev).entries.Keys;
            if key in st.entries then after == st.entries.Keys
            else StoreOk(Grown(st, key, meta)) && after == Evicted(Grown(st, key, meta),
                                                                   EntryLimit(ev.cfg)).entries.Keys
  {
    StepTouches(st, ev, key, meta);
    RecordKeys(Touch(st, key, meta, EntryLimit(ev.cfg)), key, StampOf(ev));
    if key in st.entries {
      TouchMoves(st, key, meta, EntryLimit(ev.cfg));
    } else {
      TouchNew(st, key, meta, EntryLimit(ev.cfg));
    }
  }

  lemma StepTouches(st: Store, ev: Event, key: string, meta: Meta)
    requires StoreOk(st) && LooksUp(st, ev) == Some((key, meta))
    ensures Step(st, ev) == Record(Touch(st, key, meta, EntryLimit(ev.cfg)), key, StampOf(ev))
  {
  }

  lemma RecordKeys(st: Store, key: string, e: Stamped)
    ensures Record(st, key, e).entries.Keys == st.entries.Keys
  {
  }

  lemma PresentAfterGrowth(grown: Store, limit: nat, key: string)
    requires StoreOk(grown)
    ensures key in Evicted(grown, limit).entries <==> exists i: nat :: SurvivesAt(grown, limit, i, key)
  {
    if key in Evicted(grown, limit).entries {
      assert key in grown.order;
      var i: nat :| i < |grown.order| && grown.order[i] == key;
      SurvivesIff(grown, limit, i);
      assert SurvivesAt(grown, limit, i, key);
    }
    if i: nat :| SurvivesAt(grown, limit, i, key) {
      SurvivesIff(grown, limit, i);
    }
  }

  /** A new circuit has the identity its caller gave, or the one its key spells. */
  lemma NewIdentity(st: Store, ev: Event, key: string)
    requires StoreOk(st) && key in Step(st, ev).entries && key !in st.entries
    ensures LooksUp(st, ev).Some? && LooksUp(st, ev).value == (key, Step(st, ev).entries[key].meta)
  {
    var l := LooksUp(st, ev);
    if l.Some? {
      var (k, meta) := l.value;
      StepTouches(st, ev, k, meta);
      TouchKeeps(st, k, meta, EntryLimit(ev.cfg));
      RecordMeta(Touch(st, k, meta, EntryLimit(ev.cfg)), k, StampOf(ev), key);
    } else {
      NothingNew(st, ev);
    }
  }

  lemma RecordMeta(st: Store, k: string, e: Stamped, key: string)
    requires key in Record(st, k, e).entries
    ensures key in st.entries && Record(st, k, e).entries[key].meta == st.entries[key].meta
  {
  }

  lemma NothingNew(st: Store, ev: Event)
    requires StoreOk(st) && LooksUp(st, ev).None?
    ensures Step(st, ev).entries.Keys <= st.entries.Keys
  {
  }

  // ----- every circuit is the replay of its own history --------------------------------------------

  /** What the histories of live circuits look like after a run whose last event came at `t`. */
  ghost predicate Faithful(st: Store) {
    forall k :: k in st.entries ==> st.entries[k].hist != [] && st.entries[k].breaker == Replay(st.entries[k].hist)
  }

  /** The fields of a live circuit are the replay of what was done to it since it was created,
      whatever was evicted, reset or reconfigured on the way. */
  lemma {:induction false} RunIsFaithful(evs: seq<Event>)
    ensures Faithful(Run(evs))
  {
    if evs != [] {
      var st, ev := Run(Front(evs)), Last(evs);
      RunIsFaithful(Front(evs));
      forall k | k in Run(evs).entries
        ensures Run(evs).entries[k].hist != [] && Run(evs).entries[k].breaker == Replay(Run(evs).entries[k].hist)
      {
        StepEffect(st, ev, k);
        if Reaches(st, ev, k) {
          ReplayStep(if k in st.entries then st.entries[k].hist else [], StampOf(ev));
        }
      }
    }
  }

  /** The histories of a steady run are steady and clocked, and end no later than the run. */
  lemma {:induction false} RunIsSteady(evs: seq<Event>, s: Settings, key: string)
    requires SteadyRun(evs, s) && ClockedRun(evs) && key in Run(evs).entries
    ensures evs != []
    ensures Steady(Run(evs).entries[key].hist, s) && Clocked(Run(evs).entries[key].hist)
    ensures forall i :: 0 <= i < |Run(evs).entries[key].hist| ==> Run(evs).entries[key].hist[i].now <= Last(evs).now
  {
    var st, ev := Run(Front(evs)), Last(evs);
    StepEffect(st, ev, key);
    if key in st.entries {
      RunIsSteady(Front(evs), s, key);
    }
  }

  /** The trip machine over every run: the counters of each live circuit are functions of the
      outcomes recorded on it, and its fields agree with its phase. */
  lemma CountersMatchOutcomes(evs: seq<Event>, s: Settings, key: string)
    requires SteadyRun(evs, s) && ClockedRun(evs) && key in Run(evs).entries
    ensures var c, h := Run(evs).entries[key].breaker, Run(evs).entries[key].hist;
            && c.consecutiveFailures == TrailingFailures(Outcomes(h))
            && c.trips == OpeningsSinceClosed(h)
            && (c.phase == Closed <==> c.trips == 0)
            && (c.phase == Closed ==> c.consecutiveFailures < FailureThreshold(s))
            && (c.probeInflight ==> c.phase == HalfOpen)
            && c.window == LastN(Outcomes(h), WINDOW_MAX_SAMPLES)
  {
    RunIsFaithful(evs);
    RunIsSteady(evs, s, key);
    CountersMatchLog(Run(evs).entries[key].hist, s);
    WindowIsLogSuffix(Run(evs).entries[key].hist);
  }

  // ----- bounded recovery -------------------------------------------------------------------------

  /** None of the events of `quiet`, run after `evs`, reaches the key. */
  ghost predicate LeftAlone(evs: seq<Event>, quiet: seq<Event>, key: string) {
    quiet == []
    || (LeftAlone(evs, Front(quiet), key) && !Reaches(Run(evs + Front(quiet)), Last(quiet), key))
  }

  lemma RunSplit(evs: seq<Event>, more: seq<Event>)
    requires more != []
    ensures Run(evs + more) == Step(Run(evs + Front(more)), Last(more))
  {
    assert Front(evs + more) == evs + Front(more) && Last(evs + more) == Last(more);
  }

  lemma {:induction false} LeftAloneKeeps(evs: seq<Event>, quiet: seq<Event>, key: string)
    requires LeftAlone(evs, quiet, key) && key in Run(evs + quiet).entries
    ensures key in Run(evs).entries && Run(evs + quiet).entries[key] == Run(evs).entries[key]
  {
    if quiet == [] {
      assert evs + quiet == evs;
    } else {
      RunSplit(evs, quiet);
      StepEffect(Run(evs + Front(quiet)), Last(quiet), key);
      LeftAloneKeeps(evs, Front(quiet), key);
    }
  }

  /** Bounded recovery: a key that nothing has reached for the longest cooldown and the probe
      timeout is admitted again, whatever mix of failures, Retry-After values, health reports and
      lost probes came before, and whatever happens to other keys meanwhile. */
  lemma BoundedRecovery(evs: seq<Event>, quiet: seq<Event>, s: Settings, key: string, now: real)
    requires SteadyRun(evs, s) && ClockedRun(evs)
    requires LeftAlone(evs, quiet, key)
    requires evs != [] ==> now >= Last(evs).now + MaxReal(CooldownCap(s), PROBE_STALE_SECONDS)
    ensures Allows(Current(Run(evs + quiet), key), s, now)
    ensures TicketFor(Current(Run(evs + quiet), key), s, now) != Forced
  {
    var st := Run(evs + quiet);
    if key in st.entries {
      LeftAloneKeeps(evs, quiet, key);
      RunIsFaithful(evs);
      RunIsSteady(evs, s, key);
      RecoversWhenLeftAlone(st.entries[key].hist, s, now);
    } else {
      AllowsPredictsTicket(FRESH, s, now);
    }
  }

  // ----- probe exclusivity ------------------------------------------------------------------------

  /** The circuit of `key` is half-open now and after every event of `mid`. */
  ghost predicate HalfOpenThroughout(evs: seq<Event>, mid: seq<Event>, key: string) {
    && key in Run(evs + mid).entries
    && Run(evs + mid).entries[key].breaker.phase == HalfOpen
    && (mid == [] || HalfOpenThroughout(evs, Front(mid), key))
  }

  ghost predicate GrantsProbe(evs: seq<Event>, ev: Event, key: string) {
    && ev.call.CallAcquire? && ev.call.key == key
    && TicketFor(Current(Run(evs), key), ev.cfg, ev.now) == Probe
  }

  /** While a circuit stays half-open, two probes are granted at least the staleness limit apart
      unless a probe ticket is released in between. */
  lemma ProbesAreSpaced(evs: seq<Event>, grant: Event, mid: seq<Event>, again: Event, key: string)
    requires forall i :: 0 <= i < |mid| ==> grant.now <= mid[i].now && mid[i].call != CallRelease(key, Probe)
    requires GrantsProbe(evs, grant, key) && GrantsProbe(evs + [grant] + mid, again, key)
    requires HalfOpenThroughout(evs + [grant], mid, key)
    ensures again.now - grant.now >= PROBE_STALE_SECONDS
  {
    ProbeIsHeld(evs, grant, mid, key);
  }

  lemma {:induction false} ProbeIsHeld(evs: seq<Event>, grant: Event, mid: seq<Event>, key: string)
    requires forall i :: 0 <= i < |mid| ==> grant.now <= mid[i].now && mid[i].call != CallRelease(key, Probe)
    requires GrantsProbe(evs, grant, key)
    requires HalfOpenThroughout(evs + [grant], mid, key)
    ensures Run(evs + [grant] + mid).entries[key].breaker.probeInflight
    ensures Run(evs + [grant] + mid).entries[key].breaker.probeStarted >= grant.now
  {
    if mid == [] {
      assert evs + [grant] + mid == evs + [grant];
      RunStep(evs, grant);
      StepEffect(Run(evs), grant, key);
    } else {
      ProbeIsHeld(evs, grant, Front(mid), key);
      RunSplit(evs + [grant], mid);
      ProbeHeldStep(Run(evs + [grant] + Front(mid)), Last(mid), key);
    }
  }

  lemma ProbeHeldStep(st: Store, ev: Event, key: string)
    requires StoreOk(st) && key in st.entries && key in Step(st, ev).entries
    requires st.entries[key].breaker.phase == HalfOpen && st.entries[key].breaker.probeInflight
    requires Step(st, ev).entries[key].breaker.phase == HalfOpen && ev.call != CallRelease(key, Probe)
    ensures var c := Step(st, ev).entries[key].breaker;
            c.probeInflight && (c.probeStarted == st.entries[key].breaker.probeStarted || c.probeStarted == ev.now)
  {
    StepEffect(st, ev, key);
    if Reaches(st, ev, key) {
      HalfOpenStep(st.entries[key].breaker, StampOf(ev));
    }
  }

  // ----- eviction -----------------------------------------------------------------------------------

  /** Acquires on `n` different keys: the empty text, `x`, `xx` and so on. */
  function Crowd(n: nat, cfg: Settings): seq<Event> {
    if n == 0 then [] else Crowd(n - 1, cfg) + [AcquireOf(n - 1, cfg)]
  }

  function AcquireOf(i: nat, cfg: Settings): Event {
    Event(0.0, cfg, CallAcquire(seq(i, _ => 'x'), Meta("m", "d", "u")))
  }

  /** Up to the limit a crowd fills the registry with busy circuits. */
  lemma {:induction false} CrowdIsBusy(n: nat, cfg: Settings)
    requires n <= EntryLimit(cfg)
    ensures |Run(Crowd(n, cfg)).order| == n
    ensures forall k :: k in Run(Crowd(n, cfg)).entries ==>
              |k| < n && Run(Crowd(n, cfg)).entries[k].breaker.inflight > 0
  {
    if n > 0 {
      CrowdIsBusy(n - 1, cfg);
      var st, ev := Run(Crowd(n - 1, cfg)), AcquireOf(n - 1, cfg);
      RunStep(Crowd(n - 1, cfg), ev);
      assert ev.call.key !in st.entries;
      forall k | k in Step(st, ev).entries ensures |k| < n && Step(st, ev).entries[k].breaker.inflight > 0 {
        StepEffect(st, ev, k);
        TouchKeeps(st, ev.call.key, ev.call.meta, EntryLimit(cfg));
      }
    }
  }

  /** Under any settings a circuit can be its own eviction victim: in a registry filled to its limit with
      busy circuits, a request for one more key gets a ticket from a circuit that is gone when the lock
      is released. */
  lemma SelfEvictionIsReachable(cfg: Settings)
    ensures var n: nat := Max(cfg.maxEntries, 16);
            var full, ev := Run(Crowd(n, cfg)), AcquireOf(n, cfg);
            && |full.order| == n
            && ev.call.key !in full.entries
            && ev.call.key !in Run(Crowd(n, cfg) + [ev]).entries
  {
    var n := EntryLimit(cfg);
    var full, ev := Run(Crowd(n, cfg)), AcquireOf(n, cfg);
    CrowdIsBusy(n, cfg);
    RunStep(Crowd(n, cfg), ev);
    assert IdleKeys(full) == {};
    TouchKeeps(full, ev.call.key, ev.call.meta, n);
  }

  /** With fixed settings the registry never holds more circuits than its limit. */
  lemma {:induction false} SizeBounded(evs: seq<Event>, s: Settings)
    requires forall i :: 0 <= i < |evs| ==> evs[i].cfg == s
    ensures |Run(evs).order| <= Max(s.maxEntries, 16)
  {
    if evs != [] {
      SizeBounded(Front(evs), s);
      StepSize(Run(Front(evs)), Last(evs));
    }
  }

  lemma TouchSize(st: Store, key: string, meta: Meta, limit: nat)
    requires StoreOk(st)
    ensures |Touch(st, key, meta, limit).order| <= if |st.order| <= limit then limit else |st.order|
  {
    WithoutProps(st.order, key);
  }

  lemma StepSize(st: Store, ev: Event)
    requires StoreOk(st) && |st.order| <= EntryLimit(ev.cfg)
    ensures |Step(st, ev).order| <= EntryLimit(ev.cfg)
  {
    var limit := EntryLimit(ev.cfg);
    match ev.call
    case CallAcquire(key, meta) => TouchSize(st, key, meta, limit);
    case CallSuccess(key, _) => TouchSize(st, key, KeyMeta(key), limit);
    case CallFailure(key, _, _) => TouchSize(st, key, KeyMeta(key), limit);
    case CallHealth(model, baseUrl, _) =>
      var key := CircuitKey(model, "", StripSlashes(baseUrl));
      TouchSize(st, key, MetaFor(key, model, "", StripSlashes(baseUrl)), limit);
    case _ =>
  }
}
