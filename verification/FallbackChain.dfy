/** Resolving a requested name for a caller, and walking the fallback links from the result. */
module FallbackChain {
  import opened Prelude
  import opened Models
  import opened ModelRegistry

  const AUTO_MODEL_NAME := "auto"
  const DEFAULT_DEPTH := 5
  const MAX_DEPTH := 16

  // ----- access and aliases -----------------------------------------------------------------------

  /** The allowlists of orgs, teams and keys; a missing or empty list restricts nothing below the org. */
  datatype AccessTables = AccessTables(
    org: map<string, set<string>>,
    team: map<string, set<string>>,
    key: map<string, set<string>>)

  datatype AliasTables = AliasTables(
    org: map<string, map<string, string>>,
    team: map<string, map<string, string>>)

  datatype Caller = Caller(orgId: string, teamId: string, keyId: string)

  /** `ModelAccessCache.check`. */
  predicate Allowed(t: AccessTables, who: Caller, model: string) {
    var org := GetOr(t.org, who.orgId, {});
    var team := GetOr(t.team, who.teamId, {});
    var key := GetOr(t.key, who.keyId, {});
    && model in org
    && (who.teamId != "" && team != {} ==> model in team)
    && (key != {} ==> model in key)
  }

  /** The allowlists that bind a caller: its org's, even if there is none, and those of its team and its key
      unless they are missing or empty. */
  ghost predicate Binds(t: AccessTables, who: Caller, list: set<string>) {
    || (who.orgId in t.org && list == t.org[who.orgId])
    || (who.orgId !in t.org && list == {})
    || (who.teamId != "" && who.teamId in t.team && list == t.team[who.teamId] != {})
    || (who.keyId in t.key && list == t.key[who.keyId] != {})
  }

  /** The most restrictive list wins: a caller may use exactly the models on every list that binds it. */
  lemma AllowedIff(t: AccessTables, who: Caller, model: string)
    ensures Allowed(t, who, model) <==> forall list :: Binds(t, who, list) ==> model in list
  {
    assert Binds(t, who, GetOr(t.org, who.orgId, {}));
    if who.teamId in t.team && who.teamId != "" && t.team[who.teamId] != {} {
      assert Binds(t, who, t.team[who.teamId]);
    }
    if who.keyId in t.key && t.key[who.keyId] != {} {
      assert Binds(t, who, t.key[who.keyId]);
    }
  }

  /** `AliasCache.resolve`: the team's alias first, then the org's; an empty target is no target. */
  function Canonical(t: AliasTables, who: Caller, name: string): string {
    var byTeam := if who.teamId == "" then "" else GetOr(GetOr(t.team, who.teamId, map[]), name, "");
    var byOrg := GetOr(GetOr(t.org, who.orgId, map[]), name, "");
    if byTeam != "" then byTeam else if byOrg != "" then byOrg else name
  }

  /** What resolution reads: the two caches (absent in tests and for anonymous callers) and the index. */
  datatype World = World(aliases: Option<AliasTables>, access: Option<AccessTables>, ix: Index)

  /** `_resolve_model`, with `None` for the errors it raises. */
  function ResolveModel(w: World, who: Option<Caller>, name: string): (m: Option<Model>)
    ensures m.Some? && who.Some? && w.access.Some? ==> Allowed(w.access.value, who.value, m.value.name)
  {
    var canonical := if w.aliases.Some? && who.Some? then Canonical(w.aliases.value, who.value, name) else name;
    if canonical == AUTO_MODEL_NAME then None
    else
      var found := Resolve(w.ix, canonical);
      if found.Some? && who.Some? && w.access.Some? && !Allowed(w.access.value, who.value, found.value.name) then None
      else found
  }

  /** The canonical name of a request: the target of the caller's team alias, of its org alias when the
      team has none, or the name itself. Only an identified caller has aliases. */
  ghost predicate IsCanonical(w: World, who: Option<Caller>, name: string, canonical: string) {
    if w.aliases.None? || who.None? then canonical == name
    else
      var byTeam, byOrg := w.aliases.value.team, w.aliases.value.org;
      var team, org := who.value.teamId, who.value.orgId;
      if team != "" && Targets(byTeam, team, name) then canonical == byTeam[team][name]
      else if Targets(byOrg, org, name) then canonical == byOrg[org][name]
      else canonical == name
  }

  predicate Targets(tables: map<string, map<string, string>>, id: string, name: string) {
    id in tables && name in tables[id] && tables[id][name] != ""
  }

  /** A request resolves to a model exactly if a search of the registered models for the canonical name,
      by name and then by alias, finds it and the caller may use it. The reserved name finds nothing. */
  lemma ResolvesIff(w: World, who: Option<Caller>, name: string, canonical: string, ms: seq<Model>, m: Model)
    requires Agrees(w.ix) && Lists(ms, w.ix.models) && IsCanonical(w, who, name, canonical)
    ensures ResolveModel(w, who, name) == Some(m) <==>
              && canonical != AUTO_MODEL_NAME
              && Scan(ms, canonical) == Some(m)
              && (who.Some? && w.access.Some? ==> Allowed(w.access.value, who.value, m.name))
  {
    ResolveIsScan(w.ix, ms, canonical);
  }

  // ----- the walk ---------------------------------------------------------------------------------

  /** `fallback_depth_limit`. */
  function DepthLimit(configured: int): int {
    if configured > 0 then (if configured < MAX_DEPTH then configured else MAX_DEPTH) else DEFAULT_DEPTH
  }

  /** The model a fallback link leads to, if there is a link and it resolves. */
  function Link(m: Model, resolve: string -> Option<Model>): Option<Model> {
    var next := Strip(m.fallback);
    if next == "" then None else resolve(next)
  }

  /** The name of a link may have whitespace around it; a link of nothing else is none. */
  lemma LinkIgnoresSpace(m: Model, resolve: string -> Option<Model>, left: string, name: string, right: string)
    requires m.fallback == left + name + right && forall c :: c in left + right ==> IsSpace(c)
    requires name != "" ==> !IsSpace(name[0]) && !IsSpace(Last(name))
    ensures Link(m, resolve) == if name == "" then None else resolve(name)
  {
    StripMiddle(left, name, right);
  }

  /** A path along the links from `start` that repeats no name. */
  ghost predicate IsPath(chain: seq<Model>, start: Model, resolve: string -> Option<Model>) {
    && DistinctNames(chain)
    && (chain != [] ==> chain[0] == start)
    && (forall i :: 0 <= i < |chain| - 1 ==> Link(chain[i], resolve) == Some(chain[i + 1]))
  }

  lemma PathGrows(chain: seq<Model>, m: Model, start: Model, resolve: string -> Option<Model>)
    requires IsPath(chain, start, resolve) && m.name !in Names(chain)
    requires if chain == [] then m == start else Link(Last(chain), resolve) == Some(m)
    ensures IsPath(chain + [m], start, resolve)
    ensures Names(chain + [m]) == Names(chain) + {m.name}
  {
    assert forall x :: x in chain ==> x.name in Names(chain);
  }

  /** The longest chain of links from `start` with distinct names and at most `depth + 1` models. */
  ghost predicate IsChain(chain: seq<Model>, start: Model, resolve: string -> Option<Model>, depth: int) {
    if depth < 0 then chain == []
    else
      && chain != []
      && |chain| <= depth + 1
      && IsPath(chain, start, resolve)
      && (|chain| == depth + 1
          || Link(Last(chain), resolve).None?
          || Link(Last(chain), resolve).value.name in Names(chain))
  }

  method WalkFallbackNames(start: Model, resolve: string -> Option<Model>, maxDepth: int) returns (chain: seq<Model>)
    ensures IsChain(chain, start, resolve, maxDepth)
  {
    chain := [];
    var seen: set<string> := {};
    var current := Some(start);
    var depth := 0;
    while current.Some? && current.value.name !in seen && depth <= maxDepth
      invariant seen == Names(chain) && IsPath(chain, start, resolve)
      invariant depth == |chain|
      invariant maxDepth < 0 ==> chain == []
      invariant 0 <= maxDepth ==> depth <= maxDepth
      invariant chain == [] ==> current == Some(start)
      invariant chain != [] ==> current == Link(Last(chain), resolve)
      decreases maxDepth - depth
    {
      var m := current.value;
      PathGrows(chain, m, start, resolve);
      seen := seen + {m.name};
      chain := chain + [m];
      var next := Strip(m.fallback);
      if next == "" {
        break;
      }
      depth := depth + 1;
      if depth > maxDepth {
        break;
      }
      current := resolve(next);
    }
  }

  /** There is only one such chain, so the walk computes it. */
  lemma {:induction false} ChainsAgree(
    a: seq<Model>, b: seq<Model>, start: Model, resolve: string -> Option<Model>, depth: int, i: nat)
    requires IsChain(a, start, resolve, depth) && IsChain(b, start, resolve, depth)
    requires i < |a| && i < |b|
    ensures a[i] == b[i]
  {
    if i > 0 {
      ChainsAgree(a, b, start, resolve, depth, i - 1);
      assert Link(a[i - 1], resolve) == Some(a[i]) && Link(b[i - 1], resolve) == Some(b[i]);
    }
  }

  lemma NoLongerChain(a: seq<Model>, b: seq<Model>, start: Model, resolve: string -> Option<Model>, depth: int)
    requires IsChain(a, start, resolve, depth) && IsChain(b, start, resolve, depth)
    ensures |b| <= |a|
  {
    if |a| < |b| {
      var n := |a|;
      ChainsAgree(a, b, start, resolve, depth, n - 1);
      assert Link(b[n - 1], resolve) == Some(b[n]);
      assert b[n].name in Names(a);
      var m :| m in a && m.name == b[n].name;
      var j :| 0 <= j < n && a[j] == m;
      ChainsAgree(a, b, start, resolve, depth, j);
    }
  }

  lemma ChainUnique(a: seq<Model>, b: seq<Model>, start: Model, resolve: string -> Option<Model>, depth: int)
    requires IsChain(a, start, resolve, depth) && IsChain(b, start, resolve, depth)
    ensures a == b
  {
    NoLongerChain(a, b, start, resolve, depth);
    NoLongerChain(b, a, start, resolve, depth);
    forall i | 0 <= i < |a| ensures a[i] == b[i] { ChainsAgree(a, b, start, resolve, depth, i); }
  }

  /** The most models a chain may hold: one more than the configured depth, but no more than 17; six if no
      depth is configured. */
  function ChainMax(configured: int): nat {
    if configured <= 0 then 6 else if configured <= 16 then configured + 1 else 17
  }

  /** A chain that starts from a resolved request holds no more models than configured, and fewer only if
      its last link leads nowhere or back; and the caller may use every one of them. */
  lemma ChainIsAccessible(chain: seq<Model>, w: World, who: Option<Caller>, requested: string, configured: int)
    requires ResolveModel(w, who, requested).Some?
    requires IsChain(chain, ResolveModel(w, who, requested).value, n => ResolveModel(w, who, n), DepthLimit(configured))
    ensures 1 <= |chain| <= ChainMax(configured) <= 17
    ensures |chain| < ChainMax(configured) ==>
              var next := Link(Last(chain), n => ResolveModel(w, who, n));
              next.None? || next.value.name in Names(chain)
    ensures who.Some? && w.access.Some? ==> forall m :: m in chain ==> Allowed(w.access.value, who.value, m.name)
  {
    var resolve := n => ResolveModel(w, who, n);
    forall i | 0 <= i < |chain| && who.Some? && w.access.Some?
      ensures Allowed(w.access.value, who.value, chain[i].name)
    {
      if i > 0 {
        assert Link(chain[i - 1], resolve) == Some(chain[i]);
        assert resolve(Strip(chain[i - 1].fallback)) == ResolveModel(w, who, Strip(chain[i - 1].fallback));
      }
    }
  }

  // ----- the health and circuit filters --------------------------------------------------------------

  /** Filter, unless nothing would be left. */
  function KeptOrAll(chain: seq<Model>, keep: Model -> bool): (r: seq<Model>)
    ensures |r| <= |chain| && forall m :: m in r ==> m in chain
  {
    if Filter(chain, keep) != [] then Filter(chain, keep) else chain
  }

  /** The chain a request tries: unhealthy models are skipped, then (when circuits are enabled and a
      choice is left) models whose every target is blocked. */
  function Tried(
    chain: seq<Model>, unhealthy: Option<Model -> bool>, circuitsEnabled: bool, admitted: Model -> bool)
    : (r: seq<Model>)
    ensures |r| <= |chain| && forall m :: m in r ==> m in chain
  {
    var healthy := Healthy(chain, unhealthy);
    if circuitsEnabled && |healthy| > 1 then KeptOrAll(healthy, admitted) else healthy
  }

  function Healthy(chain: seq<Model>, unhealthy: Option<Model -> bool>): (r: seq<Model>)
    ensures |r| <= |chain| && forall m :: m in r ==> m in chain
  {
    if unhealthy.Some? then KeptOrAll(chain, (m: Model) => !unhealthy.value(m)) else chain
  }

  /** A model is worth trying if it qualifies, or if none in the chain does. */
  ghost predicate Preferred(m: Model, chain: seq<Model>, good: Model -> bool) {
    good(m) || forall x :: x in chain ==> !good(x)
  }

  lemma KeptArePreferred(chain: seq<Model>, good: Model -> bool)
    ensures KeptOrAll(chain, good) == Filter(chain, (m: Model) => Preferred(m, chain, good))
  {
    var kept := Filter(chain, good);
    if kept != [] {
      assert kept[0] in kept;
      FilterSame(chain, good, (m: Model) => Preferred(m, chain, good));
    } else {
      forall x | x in chain ensures !good(x) { assert x !in kept; }
      FilterAll(chain, (m: Model) => Preferred(m, chain, good));
    }
  }

  /** The healthy models of a chain, or all if none is or nobody knows. */
  ghost predicate Sound(m: Model, chain: seq<Model>, unhealthy: Option<Model -> bool>) {
    unhealthy.None? || Preferred(m, chain, (x: Model) => !unhealthy.value(x))
  }

  lemma HealthyAreSound(chain: seq<Model>, unhealthy: Option<Model -> bool>)
    ensures Healthy(chain, unhealthy) == Filter(chain, (m: Model) => Sound(m, chain, unhealthy))
  {
    if unhealthy.Some? {
      KeptArePreferred(chain, (x: Model) => !unhealthy.value(x));
      FilterSame(chain, (m: Model) => Preferred(m, chain, (x: Model) => !unhealthy.value(x)),
                 (m: Model) => Sound(m, chain, unhealthy));
    } else {
      FilterAll(chain, (m: Model) => Sound(m, chain, unhealthy));
    }
  }

  /** The filters, in full: of the chain, in its order, a request tries the models that are healthy (all of
      them if none is), and of those, if circuits are enabled and there is more than one, the ones whose
      circuits admit a request (all of them if none do). So the chain is never emptied. */
  lemma TriedChain(chain: seq<Model>, unhealthy: Option<Model -> bool>, circuitsEnabled: bool, admitted: Model -> bool)
    requires chain != []
    ensures var sound := Filter(chain, (m: Model) => Sound(m, chain, unhealthy));
            && Tried(chain, unhealthy, circuitsEnabled, admitted)
               == (if circuitsEnabled && |sound| > 1
                   then Filter(sound, (m: Model) => Preferred(m, sound, admitted)) else sound)
            && Tried(chain, unhealthy, circuitsEnabled, admitted) != []
  {
    HealthyAreSound(chain, unhealthy);
    KeptArePreferred(Healthy(chain, unhealthy), admitted);
  }
}
