/** The alert dispatcher: a bounded queue that drops the oldest event, and per-scope cooldowns. */
module AlertDispatcher {
  import opened Prelude

  const CLEAR_ABOVE := 10000
  const KIND_TEST := "test"

  /** Severities are ranks; `orgId` is absent for platform events. */
  datatype AlertEvent = AlertEvent(
    kind: string,
    known: bool,
    severity: int,
    critical: bool,
    orgId: Option<string>,
    dedupeKey: string)

  datatype AlertRule = AlertRule(enabled: bool, severityMin: int, cooldown: int)

  predicate Permits(r: AlertRule, severity: int) { r.enabled && severity >= r.severityMin }

  /** A scope as the cooldown map spells it: an org id, or the empty string for the platform. */
  type Scope = string

  const PLATFORM: Scope := ""

  datatype FireKey = FireKey(scope: Scope, kind: string, dedupeKey: string)

  function ScopesOf(ev: AlertEvent): (scopes: seq<Scope>)
    ensures NoDup(scopes)
  {
    var org := if ev.orgId.Some? && ev.orgId.value != "" then [ev.orgId.value] else [];
    org + (if ev.orgId.None? || ev.critical || !ev.known then [PLATFORM] else [])
  }

  /** An event is judged in its org's scope, if it has an org, and then in the platform's if it has none, is
      critical, or is of an unknown kind. */
  lemma ScopesAre(ev: AlertEvent)
    ensures forall s :: s in ScopesOf(ev) <==>
              if s == "" then ev.orgId.None? || ev.critical || !ev.known else ev.orgId == Some(s)
    ensures forall i :: 0 <= i < |ScopesOf(ev)| && ScopesOf(ev)[i] == "" ==> i == |ScopesOf(ev)| - 1
  {
  }

  // ----- firings ------------------------------------------------------------------------------------

  /** One firing of a deduplicated event in one scope: when, under which cooldown, and how often the
      in-memory map had been cleared before. */
  datatype Firing = Firing(key: FireKey, at: real, cooldown: int, epoch: nat)

  /** The time of the last firing of a key since the map was last cleared. */
  function LatestAt(firings: seq<Firing>, key: FireKey, epoch: nat): Option<real> {
    if firings == [] then None
    else if Last(firings).key == key && Last(firings).epoch == epoch then Some(Last(firings).at)
    else LatestAt(Front(firings), key, epoch)
  }

  /** Each firing kept its cooldown from the last firing of its key in the same epoch. */
  ghost predicate Spaced(firings: seq<Firing>) {
    firings == []
    || (&& Spaced(Front(firings))
        && var f := Last(firings);
           var last := LatestAt(Front(firings), f.key, f.epoch);
           last.Some? && f.cooldown > 0 ==> f.at - last.value >= f.cooldown as real)
  }

  ghost predicate ClockedFirings(firings: seq<Firing>) {
    forall i, j :: 0 <= i <= j < |firings| ==> firings[i].at <= firings[j].at
  }

  lemma {:induction false} LatestAtLeast(firings: seq<Firing>, i: nat)
    requires ClockedFirings(firings) && i < |firings|
    ensures var last := LatestAt(firings, firings[i].key, firings[i].epoch);
            last.Some? && last.value >= firings[i].at
  {
    if Last(firings).key != firings[i].key || Last(firings).epoch != firings[i].epoch {
      LatestAtLeast(Front(firings), i);
    }
  }

  /** With a clock that does not run backwards, any two firings of the same scope, kind and dedupe key
      between which the map was not cleared are at least the later one's cooldown apart. */
  lemma {:induction false} FiringsAreApart(firings: seq<Firing>, i: nat, j: nat)
    requires Spaced(firings) && ClockedFirings(firings)
    requires i < j < |firings| && firings[i].key == firings[j].key && firings[i].epoch == firings[j].epoch
    requires firings[j].cooldown > 0
    ensures firings[j].at - firings[i].at >= firings[j].cooldown as real
    decreases |firings|
  {
    if j == |firings| - 1 {
      LatestAtLeast(Front(firings), i);
    } else {
      FiringsAreApart(Front(firings), i, j);
    }
  }

  /** `_in_cooldown`; `recorded` is the last event time the store knows. */
  predicate InCooldown(lastFired: map<FireKey, real>, scope: Scope, event: AlertEvent, cooldown: int,
                       recorded: Option<real>, now: real) {
    && event.dedupeKey != "" && cooldown > 0
    && var key := FireKey(scope, event.kind, event.dedupeKey);
       var last := if key in lastFired then Some(lastFired[key]) else recorded;
       last.Some? && now - last.value < cooldown as real
  }

  predicate FiresIn(lastFired: map<FireKey, real>, scope: Scope, event: AlertEvent, now: real, rule: AlertRule,
                    recorded: Option<real>) {
    Permits(rule, event.severity) && !InCooldown(lastFired, scope, event, rule.cooldown, recorded, now)
  }

  /** The scopes an event fires in, each judged against the map as it was when processing began. */
  function FiringScopes(scopes: seq<Scope>, lastFired: map<FireKey, real>, event: AlertEvent, now: real,
                        rule: Scope -> AlertRule, recorded: Scope -> Option<real>): seq<Scope> {
    if scopes == [] then []
    else
      var s := Last(scopes);
      FiringScopes(Front(scopes), lastFired, event, now, rule, recorded)
      + (if FiresIn(lastFired, s, event, now, rule(s), recorded(s)) then [s] else [])
  }

  /** The rule lets the event through, and it is not a repetition within the rule's cooldown. */
  predicate Due(event: AlertEvent, rule: AlertRule, last: Option<real>, now: real) {
    && rule.enabled && event.severity >= rule.severityMin
    && (event.dedupeKey == "" || rule.cooldown <= 0 || last.None? || now - last.value >= rule.cooldown as real)
  }

  /** When the event last fired in a scope, as far as the map or else the store knows. */
  function LastFired(lastFired: map<FireKey, real>, s: Scope, event: AlertEvent, recorded: Option<real>): Option<real> {
    var key := FireKey(s, event.kind, event.dedupeKey);
    if key in lastFired then Some(lastFired[key]) else recorded
  }

  /** The scopes an event fires in are those where it is due, in order. */
  lemma {:induction false} FiringScopesAre(
    scopes: seq<Scope>, lastFired: map<FireKey, real>, event: AlertEvent, now: real,
    rule: Scope -> AlertRule, recorded: Scope -> Option<real>)
    ensures FiringScopes(scopes, lastFired, event, now, rule, recorded)
         == Filter(scopes, (s: Scope) => Due(event, rule(s), LastFired(lastFired, s, event, recorded(s)), now))
  {
    if scopes != [] {
      FiringScopesAre(Front(scopes), lastFired, event, now, rule, recorded);
    }
  }

  /** What is noted of a firing: nothing when the event carries no dedupe key. */
  function FiringOf(scope: Scope, event: AlertEvent, now: real, rule: AlertRule, epoch: nat): seq<Firing> {
    if event.dedupeKey == "" then []
    else [Firing(FireKey(scope, event.kind, event.dedupeKey), now, rule.cooldown, epoch)]
  }

  ghost predicate SameEntry(a: map<FireKey, real>, b: map<FireKey, real>, k: FireKey) {
    (k in a <==> k in b) && (k in a ==> a[k] == b[k])
  }

  /** Only entries of these scopes may differ. */
  ghost predicate Untouched(a: map<FireKey, real>, b: map<FireKey, real>, scopes: seq<Scope>) {
    forall k: FireKey :: k.scope !in scopes ==> SameEntry(a, b, k)
  }

  /** The scope at hand was not considered before. */
  lemma FreshScope(scopes: seq<Scope>, i: nat, a: map<FireKey, real>, b: map<FireKey, real>, scope: Scope,
                   event: AlertEvent)
    requires NoDup(scopes) && i < |scopes| && scope == scopes[i] && Untouched(a, b, scopes[..i])
    ensures SameEntry(a, b, FireKey(scope, event.kind, event.dedupeKey))
    ensures scopes[..i + 1] == scopes[..i] + [scope]
  {
    assert scope !in scopes[..i];
  }

  lemma UntouchedStep(a: map<FireKey, real>, was: map<FireKey, real>, b: map<FireKey, real>, scopes: seq<Scope>,
                      scope: Scope)
    requires Untouched(was, b, scopes) && forall k: FireKey :: k.scope != scope ==> SameEntry(a, was, k)
    ensures Untouched(a, b, scopes + [scope])
  {
    forall k: FireKey | k.scope !in scopes + [scope] ensures SameEntry(a, b, k) {
      assert k.scope != scope && k.scope !in scopes;
      assert SameEntry(was, b, k) && SameEntry(a, was, k);
    }
  }

  lemma SameDecision(a: map<FireKey, real>, b: map<FireKey, real>, scope: Scope, event: AlertEvent, now: real,
                     rule: AlertRule, recorded: Option<real>)
    requires SameEntry(a, b, FireKey(scope, event.kind, event.dedupeKey))
    ensures FiresIn(a, scope, event, now, rule, recorded) == FiresIn(b, scope, event, now, rule, recorded)
  {
  }

  lemma FiringStep(scopes: seq<Scope>, s: Scope, lastFired: map<FireKey, real>, event: AlertEvent, now: real,
                   rule: Scope -> AlertRule, recorded: Scope -> Option<real>)
    ensures FiringScopes(scopes + [s], lastFired, event, now, rule, recorded)
         == FiringScopes(scopes, lastFired, event, now, rule, recorded)
            + (if FiresIn(lastFired, s, event, now, rule(s), recorded(s)) then [s] else [])
  {
    assert Front(scopes + [s]) == scopes;
  }

  predicate DueByLog(firings: seq<Firing>, epoch: nat, s: Scope, event: AlertEvent, rule: AlertRule,
                     recorded: Option<real>, now: real) {
    var last := LatestAt(firings, FireKey(s, event.kind, event.dedupeKey), epoch);
    Due(event, rule, if last.Some? then last else recorded, now)
  }

  // ----- the queue ----------------------------------------------------------------------------------

  /** What became of an event that left the queue. */
  datatype Fate = Taken(event: AlertEvent) | Dropped(event: AlertEvent)

  function Left(fates: seq<Fate>): seq<AlertEvent> {
    if fates == [] then [] else Left(Front(fates)) + [Last(fates).event]
  }

  function DroppedCount(fates: seq<Fate>): nat {
    if fates == [] then 0 else DroppedCount(Front(fates)) + (if Last(fates).Dropped? then 1 else 0)
  }

  class AlertDispatcher {
    const maxsize: nat
    var queue: seq<AlertEvent>
    var dropped: nat
    var processed: nat
    var lastFired: map<FireKey, real>
    /** Every event submitted, every event that left the queue, every firing, and how often the map
        was cleared. */
    ghost var submitted: seq<AlertEvent>
    ghost var fates: seq<Fate>
    ghost var firings: seq<Firing>
    ghost var epoch: nat

    /** First in, first out: the submission log is what left the queue followed by what is in it. */
    ghost predicate QueueOk()
      reads this
    {
      && |queue| <= maxsize && maxsize >= 1
      && submitted == Left(fates) + queue
      && dropped == DroppedCount(fates)
    }

    ghost predicate FiredOk(key: FireKey)
      reads this
    {
      LatestAt(firings, key, epoch) == if key in lastFired then Some(lastFired[key]) else None
    }

    ghost predicate Valid()
      reads this
    {
      && QueueOk()
      && Spaced(firings)
      && (forall f :: f in firings ==> f.epoch <= epoch)
      && forall k :: FiredOk(k)
    }

    constructor (maxsize: int)
      ensures Valid() && queue == [] && submitted == [] && firings == [] && this.maxsize == Max(1, maxsize)
    {
      this.maxsize := Max(1, maxsize);
      queue, dropped, processed, lastFired := [], 0, 0, map[];
      submitted, fates, firings, epoch := [], [], [], 0;
    }

    /** `_enqueue`: append, dropping the oldest queued event when the queue is full. */
    method Enqueue(event: AlertEvent)
      requires Valid()
      modifies this`queue, this`dropped, this`submitted, this`fates
      ensures Valid() && submitted == old(submitted) + [event]
      ensures queue == LastN(old(queue) + [event], maxsize)
      ensures dropped == old(dropped) + (if |old(queue)| == maxsize then 1 else 0)
    {
      if |queue| == maxsize {
        Leave(Dropped(queue[0]));
        dropped := dropped + 1;
      }
      assert Left(fates) + (queue + [event]) == (Left(fates) + queue) + [event];
      queue := queue + [event];
      submitted := submitted + [event];
      forall k ensures FiredOk(k) { assert old(FiredOk(k)); }
    }

    /** The worker takes the oldest event. */
    method Take() returns (event: AlertEvent)
      requires Valid() && queue != []
      modifies this`queue, this`fates
      ensures Valid() && event == old(queue)[0] && queue == old(queue)[1..]
    {
      event := queue[0];
      Leave(Taken(event));
      forall k ensures FiredOk(k) { assert old(FiredOk(k)); }
    }

    method Leave(fate: Fate)
      requires queue != [] && fate.event == queue[0] && submitted == Left(fates) + queue
      modifies this`queue, this`fates
      ensures queue == old(queue)[1..] && submitted == Left(fates) + queue
      ensures DroppedCount(fates) == DroppedCount(old(fates)) + (if fate.Dropped? then 1 else 0)
      ensures |fates| == |old(fates)| + 1
    {
      assert Left(fates) + queue == (Left(fates) + [queue[0]]) + queue[1..];
      queue := queue[1..];
      fates := fates + [fate];
      assert Front(fates) == old(fates);
    }

    /** The queue holds the most recent submissions, and nothing submitted is unaccounted for. */
    lemma QueueIsSuffix()
      requires QueueOk()
      ensures |queue| <= |submitted| && queue == submitted[|submitted| - |queue|..]
      ensures |submitted| == (|fates| - DroppedCount(fates)) + |queue| + dropped
    {
      LeftLength(fates);
    }

    /** When an event fires in a scope, over everything that fired before: when it is due there, given the
        last firing of its key since the map was last cleared, or else what the store recorded. */
    lemma FiresByLog(event: AlertEvent, now: real, rule: Scope -> AlertRule, recorded: Scope -> Option<real>, s: Scope)
      requires Valid()
      ensures s in FiringScopes(ScopesOf(event), lastFired, event, now, rule, recorded) <==>
                s in ScopesOf(event) && DueByLog(firings, epoch, s, event, rule(s), recorded(s), now)
    {
      FiringScopesAre(ScopesOf(event), lastFired, event, now, rule, recorded);
      assert FiredOk(FireKey(s, event.kind, event.dedupeKey));
    }

    /** `process` up to delivery: the scopes in which the event fires. */
    method Process(event: AlertEvent, now: real, rule: Scope -> AlertRule, recorded: Scope -> Option<real>)
      returns (fired: seq<Scope>)
      requires Valid()
      modifies this`lastFired, this`processed, this`firings, this`epoch
      ensures Valid() && processed == old(processed) + 1
      ensures fired == if event.kind == "test" then []
                       else FiringScopes(ScopesOf(event), old(lastFired), event, now, rule, recorded)
      ensures firings == old(firings) + Fires(fired, event, now, rule, old(epoch))
      ensures || epoch == old(epoch)
              || (epoch == old(epoch) + 1 && fired != [] && |old(lastFired)| + |fired| > 10000)
      ensures fired != [] && |old(lastFired)| > 10000 ==> epoch == old(epoch) + 1
    {
      processed := processed + 1;
      forall k ensures FiredOk(k) { assert old(FiredOk(k)); }
      if event.kind == KIND_TEST {
        assert firings + [] == firings;
        return [];
      }
      fired := ConsiderAll(ScopesOf(event), event, now, rule, recorded);
      if fired != [] && |lastFired| > CLEAR_ABOVE {
        Clear();
      }
    }

    method ConsiderAll(scopes: seq<Scope>, event: AlertEvent, now: real, rule: Scope -> AlertRule,
                       recorded: Scope -> Option<real>)
      returns (fired: seq<Scope>)
      requires Valid() && NoDup(scopes)
      modifies this`lastFired, this`firings
      ensures Valid()
      ensures fired == FiringScopes(scopes, old(lastFired), event, now, rule, recorded)
      ensures firings == old(firings) + Fires(fired, event, now, rule, epoch)
      ensures |old(lastFired)| <= |lastFired| <= |old(lastFired)| + |fired|
    {
      fired := [];
      ghost var start, before := firings, lastFired;
      assert start + [] == start;
      for i := 0 to |scopes|
        invariant Valid()
        invariant fired == FiringScopes(scopes[..i], before, event, now, rule, recorded)
        invariant firings == start + Fires(fired, event, now, rule, epoch)
        invariant Untouched(lastFired, before, scopes[..i])
        invariant |before| <= |lastFired| <= |before| + |fired|
      {
        var scope := scopes[i];
        FreshScope(scopes, i, lastFired, before, scope, event);
        SameDecision(lastFired, before, scope, event, now, rule(scope), recorded(scope));
        FiringStep(scopes[..i], scope, before, event, now, rule, recorded);
        FiresStep(fired, scope, event, now, rule, epoch, start);
        ghost var was := lastFired;
        var fires := Consider(scope, event, now, rule(scope), recorded(scope));
        UntouchedStep(lastFired, was, before, scopes[..i], scope);
        if fires {
          fired := fired + [scope];
        } else {
          assert firings + [] == firings;
        }
      }
      assert scopes[..|scopes|] == scopes;
    }

    /** One scope of `process`: fire unless the rule or the cooldown says no. */
    method Consider(scope: Scope, event: AlertEvent, now: real, rule: AlertRule, recorded: Option<real>)
      returns (fires: bool)
      requires Valid()
      modifies this`lastFired, this`firings
      ensures Valid() && fires == FiresIn(old(lastFired), scope, event, now, rule, recorded)
      ensures firings == old(firings) + (if fires then FiringOf(scope, event, now, rule, epoch) else [])
      ensures forall k: FireKey :: k.scope != scope ==> SameEntry(lastFired, old(lastFired), k)
      ensures |old(lastFired)| <= |lastFired| <= |old(lastFired)| + (if fires then 1 else 0)
    {
      if !Permits(rule, event.severity) {
        return false;
      }
      if InCooldown(lastFired, scope, event, rule.cooldown, recorded, now) {
        return false;
      }
      if event.dedupeKey != "" {
        Fire(FireKey(scope, event.kind, event.dedupeKey), now, rule.cooldown);
      }
      return true;
    }

    /** Note a firing that is not inside the cooldown of the last one. */
    method Fire(key: FireKey, now: real, cooldown: int)
      requires Valid()
      requires key in lastFired && cooldown > 0 ==> now - lastFired[key] >= cooldown as real
      modifies this`lastFired, this`firings
      ensures Valid() && lastFired == old(lastFired)[key := now]
      ensures firings == old(firings) + [Firing(key, now, cooldown, epoch)]
      ensures |old(lastFired)| <= |lastFired| <= |old(lastFired)| + 1
    {
      assert FiredOk(key);
      assert lastFired[key := now].Keys == lastFired.Keys + {key};
      SubsetSize(lastFired.Keys, lastFired.Keys + {key});
      lastFired := lastFired[key := now];
      firings := firings + [Firing(key, now, cooldown, epoch)];
      assert Front(firings) == old(firings);
      forall k ensures FiredOk(k) { assert old(FiredOk(k)); }
    }

    method Clear()
      requires Valid()
      modifies this`lastFired, this`epoch
      ensures Valid() && lastFired == map[] && epoch == old(epoch) + 1
    {
      lastFired := map[];
      epoch := epoch + 1;
      forall k ensures FiredOk(k) { NothingInNewEpoch(firings, k, epoch); }
    }
  }

  lemma {:induction false} LeftLength(fates: seq<Fate>)
    ensures |Left(fates)| == |fates| && DroppedCount(fates) <= |fates|
  {
    if fates != [] { LeftLength(Front(fates)); }
  }

  lemma {:induction false} NothingInNewEpoch(firings: seq<Firing>, key: FireKey, epoch: nat)
    requires forall f :: f in firings ==> f.epoch < epoch
    ensures LatestAt(firings, key, epoch).None?
  {
    if firings != [] {
      assert Last(firings) in firings && forall f :: f in Front(firings) ==> f in firings;
      NothingInNewEpoch(Front(firings), key, epoch);
    }
  }

  /** The firings of one event, scope by scope. */
  function Fires(scopes: seq<Scope>, event: AlertEvent, now: real, rule: Scope -> AlertRule, epoch: nat): seq<Firing> {
    if scopes == [] then []
    else Fires(Front(scopes), event, now, rule, epoch) + FiringOf(Last(scopes), event, now, rule(Last(scopes)), epoch)
  }

  /** Every firing of an event that has a dedupe key is noted, whatever the rule's cooldown. */
  lemma {:induction false} FiresAre(scopes: seq<Scope>, event: AlertEvent, now: real, rule: Scope -> AlertRule,
                                    epoch: nat)
    ensures var noted := Fires(scopes, event, now, rule, epoch);
            if event.dedupeKey == "" then noted == []
            else |noted| == |scopes| && forall i :: 0 <= i < |scopes| ==>
                   noted[i] == Firing(FireKey(scopes[i], event.kind, event.dedupeKey), now, rule(scopes[i]).cooldown,
                                      epoch)
  {
    if scopes != [] { FiresAre(Front(scopes), event, now, rule, epoch); }
  }

  lemma FiresStep(scopes: seq<Scope>, s: Scope, event: AlertEvent, now: real, rule: Scope -> AlertRule, epoch: nat,
                  before: seq<Firing>)
    ensures before + Fires(scopes + [s], event, now, rule, epoch)
         == (before + Fires(scopes, event, now, rule, epoch)) + FiringOf(s, event, now, rule(s), epoch)
  {
    assert Front(scopes + [s]) == scopes;
  }
}
