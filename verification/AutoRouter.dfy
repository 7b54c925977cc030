/** The auto router: a cache of routing decisions per prompt, and sticky sessions that only upgrade. */
module AutoRouter {
  import opened Prelude

  const CACHE_TTL: real := 60.0
  const SESSION_TTL: real := 1800.0
  const CACHE_MAX := 512
  const CACHE_DROP := 64
  const SESSION_MAX := 4096
  const SESSION_DROP := 512
  const TEXT_MAX := 800
  const CONFIDENT: real := 0.7

  /** A candidate model; `strength` and `cheapness` stand for the two heuristic scores. */
  datatype Candidate = Candidate(
    name: string, maxContextTokens: int, vision: bool, coder: bool, strength: real, cheapness: real)

  /** What the prompt analysis found. `text` is the last user text, or the whole text without one. */
  datatype Signals = Signals(
    text: string, hasImages: bool, isComplex: bool, isCodeHeavy: bool, isSimple: bool, confidence: real)

  datatype Config = Config(defaultModel: string, mode: string, complexModel: string)

  const FIXED := "fixed"
  const RANDOM := "random"

  datatype Reason = Heuristic | Classifier | Default | Session

  datatype Decision = Decision(model: string, reason: Reason, detail: string)

  datatype Stamped = Stamped(at: real, decision: Decision)

  type Cache = map<string, Stamped>

  function NamesOf(cs: seq<Candidate>): set<string> { set c | c in cs :: c.name }

  // ----- picking --------------------------------------------------------------------------------

  function OrAll(some: seq<Candidate>, all: seq<Candidate>): seq<Candidate> { if some != [] then some else all }

  /** Python's `max(pool, key=...)`: the first of the greatest. */
  function Best(cs: seq<Candidate>, score: Candidate -> real): (c: Candidate)
    requires cs != []
    ensures c in cs && forall d :: d in cs ==> score(d) <= score(c)
  {
    if |cs| == 1 then cs[0]
    else
      assert cs == Front(cs) + [Last(cs)];
      var b := Best(Front(cs), score);
      if score(Last(cs)) > score(b) then Last(cs) else b
  }

  function ByName(cs: seq<Candidate>, name: string): (r: Option<Candidate>)
    ensures r.Some? ==> r.value in cs && r.value.name == name
    ensures r.None? <==> name !in NamesOf(cs)
  {
    if cs == [] then None
    else
      assert cs == [cs[0]] + cs[1..];
      if cs[0].name == name then Some(cs[0]) else ByName(cs[1..], name)
  }

  const COMPLEX := "complex"

  predicate IsComplexDetail(detail: string) { COMPLEX <= detail }

  /** `_pick_complex`: the fixed model if it is configured and available, else any model, preferably
      not the default one. */
  function PickComplex(cs: seq<Candidate>, cfg: Config, draw: nat): (d: Decision)
    requires cs != []
    ensures d.model in NamesOf(cs) && IsComplexDetail(d.detail) && d.reason == Heuristic
  {
    var fixed := cfg.mode == FIXED && cfg.complexModel != "";
    if fixed && ByName(cs, cfg.complexModel).Some? then
      Decision(cfg.complexModel, Heuristic, COMPLEX + " -> fixed model")
    else
      var pool := OrAll(Filter(cs, (c: Candidate) => c.name != cfg.defaultModel), cs);
      var detail := if fixed then " -> random (fixed model unavailable)" else " -> random";
      Decision(pool[draw % |pool|].name, Heuristic, COMPLEX + detail)
  }

  /** `heuristic_route` on a non-empty pool. */
  function HeuristicRoute(sig: Signals, cs: seq<Candidate>, cfg: Config, draw: nat): (d: Decision)
    requires cs != []
    ensures d.model in NamesOf(cs) && d.reason == Heuristic
    ensures !sig.hasImages ==> (IsComplexDetail(d.detail) <==> sig.isComplex)
  {
    if sig.hasImages then
      var pool := OrAll(Filter(cs, (c: Candidate) => c.vision), cs);
      Decision(Best(pool, (c: Candidate) => c.strength).name, Heuristic, "vision input")
    else if sig.isComplex then PickComplex(cs, cfg, draw)
    else if sig.isCodeHeavy then
      NotComplex("coding task", 2);
      NotComplex("coding task -> default", 2);
      if ByName(cs, cfg.defaultModel).Some? then Decision(cfg.defaultModel, Heuristic, "coding task -> default")
      else
        var pool := OrAll(Filter(cs, (c: Candidate) => c.coder), cs);
        Decision(Best(pool, (c: Candidate) => c.strength).name, Heuristic, "coding task")
    else if ByName(cs, cfg.defaultModel).Some? then
      NotComplex("simple prompt", 0);
      NotComplex("default model", 0);
      Decision(cfg.defaultModel, Heuristic, if sig.isSimple then "simple prompt" else "default model")
    else
      NotComplex("default model", 0);
      Decision(Best(cs, (c: Candidate) => c.cheapness).name, Heuristic, "default model")
  }

  /** The first of the candidates with the highest score. */
  ghost predicate FirstGreatest(name: string, cs: seq<Candidate>, score: Candidate -> real) {
    exists i: nat :: i < |cs| && cs[i].name == name && GreatestAt(cs, score, i)
  }

  ghost predicate GreatestAt(cs: seq<Candidate>, score: Candidate -> real, i: nat)
    requires i < |cs|
  {
    forall j: nat :: j < |cs| ==> score(cs[j]) <= score(cs[i]) && (j < i ==> score(cs[j]) < score(cs[i]))
  }

  lemma {:induction false} BestIsFirst(cs: seq<Candidate>, score: Candidate -> real) returns (i: nat)
    requires cs != []
    ensures i < |cs| && cs[i] == Best(cs, score) && GreatestAt(cs, score, i)
  {
    if |cs| == 1 {
      i := 0;
    } else {
      i := BestIsFirst(Front(cs), score);
      if score(Last(cs)) > score(Best(Front(cs), score)) { i := |cs| - 1; }
    }
  }

  /** The strongest of the candidates of a kind, or of all if there is none of the kind. */
  ghost predicate Strongest(name: string, cs: seq<Candidate>, has: Candidate -> bool) {
    var kind := Filter(cs, has);
    FirstGreatest(name, if kind != [] then kind else cs, (c: Candidate) => c.strength)
  }

  /** What the heuristic prefers, in full: vision models for images; for complex prompts the fixed model if
      one is configured and there, else the one drawn among those that are not the default, if any; for
      everything else the default, and without it the strongest coder for coding tasks and the cheapest
      model otherwise. */
  lemma HeuristicPrefers(sig: Signals, cs: seq<Candidate>, cfg: Config, draw: nat)
    requires cs != []
    ensures var name := HeuristicRoute(sig, cs, cfg, draw).model;
            var others := Filter(cs, (c: Candidate) => c.name != cfg.defaultModel);
            if sig.hasImages then Strongest(name, cs, (c: Candidate) => c.vision)
            else if sig.isComplex then
              if cfg.mode == "fixed" && cfg.complexModel != "" && cfg.complexModel in NamesOf(cs) then
                name == cfg.complexModel
              else if others != [] then name == others[draw % |others|].name
              else name == cs[draw % |cs|].name
            else if cfg.defaultModel in NamesOf(cs) then name == cfg.defaultModel
            else if sig.isCodeHeavy then Strongest(name, cs, (c: Candidate) => c.coder)
            else FirstGreatest(name, cs, (c: Candidate) => c.cheapness)
  {
    if sig.hasImages {
      BestIsStrongest(cs, (c: Candidate) => c.vision);
    } else if !sig.isComplex && sig.isCodeHeavy {
      BestIsStrongest(cs, (c: Candidate) => c.coder);
    } else if !sig.isComplex {
      var _ := BestIsFirst(cs, (c: Candidate) => c.cheapness);
    }
  }

  lemma BestIsStrongest(cs: seq<Candidate>, has: Candidate -> bool)
    requires cs != []
    ensures Strongest(Best(OrAll(Filter(cs, has), cs), (c: Candidate) => c.strength).name, cs, has)
  {
    var _ := BestIsFirst(OrAll(Filter(cs, has), cs), (c: Candidate) => c.strength);
  }

  lemma NotComplex(detail: string, i: nat)
    requires i < |COMPLEX| && i < |detail| && detail[i] != COMPLEX[i]
    ensures !IsComplexDetail(detail)
  {
  }

  /** `_fitting_candidates`: those whose window holds the request (an unknown window is assumed to),
      unless there are none. */
  function Fitting(cs: seq<Candidate>, needed: int): (r: seq<Candidate>)
    ensures cs != [] ==> r != []
    ensures forall c :: c in r ==> c in cs
  {
    if needed <= 0 then cs
    else OrAll(Filter(cs, (c: Candidate) => c.maxContextTokens == 0 || c.maxContextTokens >= needed), cs)
  }

  /** The model's window holds the request, or nobody knows its size. */
  predicate Holds(c: Candidate, needed: int) { c.maxContextTokens == 0 || needed <= c.maxContextTokens }

  /** The candidates of a request are the models that hold it, in order, or all of them if none does. */
  lemma FittingFits(cs: seq<Candidate>, needed: int)
    ensures Fitting(cs, needed)
         == Filter(cs, (c: Candidate) => needed <= 0 || Holds(c, needed) || forall d :: d in cs ==> !Holds(d, needed))
  {
    var all := (c: Candidate) => needed <= 0 || Holds(c, needed) || forall d :: d in cs ==> !Holds(d, needed);
    var fits := (c: Candidate) => c.maxContextTokens == 0 || c.maxContextTokens >= needed;
    var kept := Filter(cs, fits);
    if needed > 0 && kept != [] {
      assert kept[0] in cs && Holds(kept[0], needed);
      FilterSame(cs, fits, all);
    } else {
      forall d | d in cs && needed > 0 ensures !Holds(d, needed) { assert d !in kept; }
      FilterAll(cs, all);
    }
  }

  // ----- the decision cache key -------------------------------------------------------------------

  const BAR: char := '|'
  const COMMA: char := ','

  /** Everything the cache key is made of; `names` are the sorted candidate names. */
  datatype Question = Question(text: string, names: seq<string>, cfg: Config)

  function CacheKey(q: Question): string {
    q.text + [BAR] + Join(q.names, COMMA) + [BAR] + q.cfg.defaultModel + [BAR] + q.cfg.mode + [BAR] + q.cfg.complexModel
  }

  /** Names that keep the key unambiguous: none contains a comma, which separates names, or a bar,
      which separates the fields. The prompt text may contain both. */
  ghost predicate Unambiguous(q: Question) {
    && q.names != []
    && (forall n :: n in q.names ==> COMMA !in n && BAR !in n)
    && BAR !in q.cfg.defaultModel && BAR !in q.cfg.mode && BAR !in q.cfg.complexModel
  }

  lemma {:induction false} JoinAvoids(parts: seq<string>, sep: char, c: char)
    requires c != sep && forall p :: p in parts ==> c !in p
    ensures c !in Join(parts, sep)
  {
    if |parts| > 1 { JoinAvoids(parts[1..], sep, c); }
  }

  /** Two questions with one key are the same question. */
  lemma KeyDeterminesNames(a: Question, b: Question)
    requires Unambiguous(a) && Unambiguous(b) && CacheKey(a) == CacheKey(b)
    ensures a == b
  {
    var a3 := a.text + [BAR] + Join(a.names, COMMA);
    var b3 := b.text + [BAR] + Join(b.names, COMMA);
    var a2, b2 := a3 + [BAR] + a.cfg.defaultModel, b3 + [BAR] + b.cfg.defaultModel;
    var a1, b1 := a2 + [BAR] + a.cfg.mode, b2 + [BAR] + b.cfg.mode;
    LastSeparator(a1, a.cfg.complexModel, b1, b.cfg.complexModel, BAR);
    LastSeparator(a2, a.cfg.mode, b2, b.cfg.mode, BAR);
    LastSeparator(a3, a.cfg.defaultModel, b3, b.cfg.defaultModel, BAR);
    JoinAvoids(a.names, COMMA, BAR);
    JoinAvoids(b.names, COMMA, BAR);
    LastSeparator(a.text, Join(a.names, COMMA), b.text, Join(b.names, COMMA), BAR);
    SplitJoin(a.names, COMMA);
    SplitJoin(b.names, COMMA);
  }

  // ----- sorting the names --------------------------------------------------------------------------

  function InsertName(names: seq<string>, n: string): (r: seq<string>)
    ensures forall x :: x in r <==> x in names || x == n
    ensures |r| == |names| + 1
  {
    if names == [] then [n]
    else if StrLess(n, names[0]) then [n] + names
    else
      assert names == [names[0]] + names[1..];
      [names[0]] + InsertName(names[1..], n)
  }

  function SortedNames(cs: seq<Candidate>): (r: seq<string>)
    ensures forall x :: x in r <==> x in NamesOf(cs)
    ensures |r| == |cs|
  {
    if cs == [] then []
    else
      assert cs == Front(cs) + [Last(cs)];
      InsertName(SortedNames(Front(cs)), Last(cs).name)
  }

  /** The names of candidates, as they come. */
  function NameList(cs: seq<Candidate>): seq<string> {
    if cs == [] then [] else NameList(Front(cs)) + [Last(cs).name]
  }

  ghost predicate Ordered(names: seq<string>) {
    forall i, j :: 0 <= i < j < |names| ==> !StrLess(names[j], names[i])
  }

  lemma OrderedCons(x: string, rest: seq<string>)
    requires Ordered(rest) && forall n :: n in rest ==> !StrLess(n, x)
    ensures Ordered([x] + rest)
  {
  }

  lemma {:induction false} InsertKeepsOrder(names: seq<string>, n: string)
    requires Ordered(names)
    ensures Ordered(InsertName(names, n))
  {
    if names != [] {
      var rest := names[1..];
      assert names == [names[0]] + rest;
      if StrLess(n, names[0]) {
        forall x | x in names ensures !StrLess(x, n) {
          var i: nat :| i < |names| && names[i] == x;
          NotBelow(n, names, i);
        }
        OrderedCons(n, names);
      } else {
        InsertKeepsOrder(rest, n);
        OrderedCons(names[0], InsertName(rest, n));
      }
    }
  }

  lemma {:induction false} InsertAdds(names: seq<string>, n: string)
    ensures multiset(InsertName(names, n)) == multiset(names) + multiset{n}
  {
    if names != [] {
      assert names == [names[0]] + names[1..];
      if !StrLess(n, names[0]) { InsertAdds(names[1..], n); }
    }
  }

  lemma NotBelow(n: string, names: seq<string>, i: nat)
    requires Ordered(names) && i < |names| && StrLess(n, names[0])
    ensures !StrLess(names[i], n)
  {
    if StrLess(names[i], n) {
      StrLessTransitive(names[i], n, names[0]);
      StrOrder(names[0], names[0]);
    }
  }

  lemma {:induction false} SortedAreNames(cs: seq<Candidate>)
    ensures Ordered(SortedNames(cs)) && multiset(SortedNames(cs)) == multiset(NameList(cs))
  {
    if cs != [] {
      SortedAreNames(Front(cs));
      InsertKeepsOrder(SortedNames(Front(cs)), Last(cs).name);
      InsertAdds(SortedNames(Front(cs)), Last(cs).name);
    }
  }

  lemma {:induction false} OrderedUnique(a: seq<string>, b: seq<string>)
    requires Ordered(a) && Ordered(b) && multiset(a) == multiset(b)
    ensures a == b
  {
    SameLength(a, b);
    if a != [] {
      SameHead(a, b);
      TailOf(a);
      TailOf(b);
      OrderedUnique(a[1..], b[1..]);
    }
  }

  lemma SameLength(a: seq<string>, b: seq<string>)
    requires multiset(a) == multiset(b)
    ensures |a| == |b|
  {
    assert |a| == |multiset(a)| == |multiset(b)| == |b|;
  }

  lemma TailOf(a: seq<string>)
    requires Ordered(a) && a != []
    ensures Ordered(a[1..]) && a == [a[0]] + a[1..] && multiset(a[1..]) == multiset(a) - multiset{a[0]}
  {
    assert a == [a[0]] + a[1..];
  }

  lemma SameHead(a: seq<string>, b: seq<string>)
    requires Ordered(a) && Ordered(b) && multiset(a) == multiset(b) && a != [] && b != []
    ensures a[0] == b[0]
  {
    assert a[0] in multiset(b) && b[0] in multiset(a);
    var i: nat :| i < |a| && a[i] == b[0];
    var j: nat :| j < |b| && b[j] == a[0];
    StrOrder(a[0], b[0]);
  }

  /** The order in which the candidates come does not matter to the cache. */
  lemma OrderIsIrrelevant(a: seq<Candidate>, b: seq<Candidate>)
    requires multiset(NameList(a)) == multiset(NameList(b))
    ensures SortedNames(a) == SortedNames(b)
  {
    SortedAreNames(a);
    SortedAreNames(b);
    OrderedUnique(SortedNames(a), SortedNames(b));
  }

  // ----- bounded caches -------------------------------------------------------------------------------

  /** The oldest `n` entries are gone and nothing else is. */
  ghost predicate Trimmed(full: Cache, kept: Cache, n: nat) {
    && (forall k :: k in kept ==> k in full && kept[k] == full[k])
    && |kept| == (if |full| >= n then |full| - n else 0)
    && (forall k, g :: k in kept && g in full && g !in kept ==> full[g].at <= kept[k].at)
  }

  /** An entry was stored in a cache, which was trimmed by `drop` if it then held more than `max`. */
  ghost predicate Filed(before: Cache, key: string, e: Stamped, after: Cache, max: nat, drop: nat) {
    var full := before[key := e];
    if |full| > max then Trimmed(full, after, drop) else after == full
  }

  /** Drop the `n` entries with the oldest stamps. */
  method DropOldest(cache: Cache, n: nat) returns (kept: Cache)
    ensures Trimmed(cache, kept, n)
  {
    kept := cache;
    for i := 0 to n
      invariant Trimmed(cache, kept, i)
    {
      if |kept| > 0 {
        var victim := Oldest(kept);
        kept := kept - {victim};
      }
    }
  }

  method Oldest(cache: Cache) returns (k: string)
    requires |cache| > 0
    ensures k in cache && forall g :: g in cache ==> cache[k].at <= cache[g].at
  {
    var left := cache.Keys;
    assert |left| > 0;
    k :| k in left;
    while left != {}
      invariant left <= cache.Keys && k in cache
      invariant forall g :: g in cache && g !in left ==> cache[k].at <= cache[g].at
      decreases left
    {
      var g :| g in left;
      if cache[g].at < cache[k].at {
        k := g;
      }
      left := left - {g};
    }
  }

  // ----- a turn without a session -----------------------------------------------------------------------

  /** What a turn draws from outside: the random pick and the classifier's choice, if it made one. */
  datatype Draws = Draws(pick: nat, classified: Option<nat>)

  /** One call of `_route_fresh`, with the configuration in force. */
  datatype Ask = Ask(sig: Signals, cs: seq<Candidate>, cfg: Config, draws: Draws, now: real)

  function Clip(text: string): string { if |text| > TEXT_MAX then text[..TEXT_MAX] else text }

  function QuestionOf(a: Ask): Question { Question(Clip(a.sig.text), SortedNames(a.cs), a.cfg) }

  /** The live answer to the same question, if the cache has one; prompts with images are never cached. */
  function CachedDecision(decisions: Cache, a: Ask): Option<Decision> {
    var key := CacheKey(QuestionOf(a));
    if !a.sig.hasImages && key in decisions && a.now - decisions[key].at < CACHE_TTL then Some(decisions[key].decision)
    else None
  }

  /** The decision for a turn without a session to stick to. The classifier is only asked when the
      heuristic is unsure. */
  function FreshDecision(decisions: Cache, a: Ask): Decision
    requires a.cs != []
  {
    var cached := CachedDecision(decisions, a);
    if cached.Some? then cached.value
    else if a.sig.confidence < CONFIDENT && a.draws.classified.Some? then Classified(a.cs, a.draws.classified.value)
    else HeuristicRoute(a.sig, a.cs, a.cfg, a.draws.pick)
  }

  /** The classifier answers with one of the candidates. */
  function Classified(cs: seq<Candidate>, pick: nat): (d: Decision)
    requires cs != []
    ensures d.model in NamesOf(cs) && d.reason == Classifier
  {
    Decision(cs[pick % |cs|].name, Classifier, "classifier pick")
  }

  /** What `_route_fresh` answers and does to the decision cache. */
  ghost predicate FreshStep(before: Cache, a: Ask, after: Cache, d: Decision) {
    && a.cs != []
    && d == FreshDecision(before, a)
    && if a.sig.hasImages || CachedDecision(before, a).Some? then after == before
       else Filed(before, CacheKey(QuestionOf(a)), Stamped(a.now, d), after, CACHE_MAX, CACHE_DROP)
  }

  /** A turn without a session, in full. A prompt without images gets the decision of the last minute for the
      same key: the first 800 characters of the text, the sorted names and the configuration. Otherwise the
      classifier decides if the heuristic is less than 0.7 confident and the classifier answers, and the
      heuristic if not; and the new decision is filed under the key, in a cache of 512 that drops its 64
      oldest entries when it overflows. */
  lemma FreshTurn(before: Cache, a: Ask, after: Cache, d: Decision)
    requires FreshStep(before, a, after, d)
    ensures var text := if |a.sig.text| <= 800 then a.sig.text else a.sig.text[..800];
            var key := CacheKey(Question(text, SortedNames(a.cs), a.cfg));
            if !a.sig.hasImages && key in before && a.now - before[key].at < 60.0 then
              d == before[key].decision && after == before
            else
              && (if a.sig.confidence < 0.7 && a.draws.classified.Some? then
                    d.model == a.cs[a.draws.classified.value % |a.cs|].name && d.reason == Classifier
                  else d == HeuristicRoute(a.sig, a.cs, a.cfg, a.draws.pick))
              && (if a.sig.hasImages then after == before else Filed(before, key, Stamped(a.now, d), after, 512, 64))
  {
  }

  // ----- a turn of a conversation -----------------------------------------------------------------------

  /** One call of `route`. `all` is the caller's whole pool, `needed` the tokens the request and its answer
      take; `sessionKey` identifies the conversation and is empty when the prompt has images. */
  datatype Visit = Visit(
    sessionKey: string, sig: Signals, all: seq<Candidate>, needed: int, cfg: Config, draws: Draws, now: real)

  datatype State = State(decisions: Cache, sessions: Cache)

  function Pool(v: Visit): seq<Candidate> { Fitting(v.all, v.needed) }

  function AskOf(v: Visit): Ask { Ask(v.sig, Pool(v), v.cfg, v.draws, v.now) }

  /** The entry a turn finds: present, not expired and still fitting. */
  function LiveEntry(sessions: Cache, key: string, cs: seq<Candidate>, now: real): Option<Decision> {
    if key != "" && key in sessions && !Expired(sessions, key, now) && sessions[key].decision.model in NamesOf(cs)
    then Some(sessions[key].decision)
    else None
  }

  predicate Expired(sessions: Cache, key: string, now: real) {
    key != "" && key in sessions && now - sessions[key].at > SESSION_TTL
  }

  /** A live entry is good for another half hour, an expired one goes, and any other is left alone. */
  function AfterGet(sessions: Cache, key: string, cs: seq<Candidate>, now: real): Cache {
    var entry := LiveEntry(sessions, key, cs, now);
    if entry.Some? then sessions[key := Stamped(now, entry.value)]
    else if Expired(sessions, key, now) then sessions - {key}
    else sessions
  }

  /** The turn is complex, its session is not yet, and the complex pick is another model. */
  predicate Upgrades(entry: Decision, v: Visit)
    requires Pool(v) != []
  {
    && v.sig.isComplex && !IsComplexDetail(entry.detail)
    && HeuristicRoute(v.sig, Pool(v), v.cfg, v.draws.pick).model != entry.model
  }

  /** What `_session_put` does; sticky answers are not stored. */
  ghost predicate SessionFiled(before: Cache, key: string, d: Decision, now: real, after: Cache) {
    if key == "" || d.reason == Session then after == before
    else Filed(before, key, Stamped(now, d), after, SESSION_MAX, SESSION_DROP)
  }

  /** What `route` answers and does to both caches. */
  ghost predicate RouteStep(before: State, v: Visit, after: State, d: Decision) {
    && v.all != [] && (v.sig.hasImages ==> v.sessionKey == "")
    && var entry := LiveEntry(before.sessions, v.sessionKey, Pool(v), v.now);
       var looked := AfterGet(before.sessions, v.sessionKey, Pool(v), v.now);
       if entry.None? then
         && FreshStep(before.decisions, AskOf(v), after.decisions, d)
         && SessionFiled(looked, v.sessionKey, d, v.now, after.sessions)
       else
         && after.decisions == before.decisions
         && if Upgrades(entry.value, v) then
              && d == HeuristicRoute(v.sig, Pool(v), v.cfg, v.draws.pick)
              && SessionFiled(looked, v.sessionKey, d, v.now, after.sessions)
            else d.model == entry.value.model && d.reason == Session && after.sessions == looked
  }

  /** A turn that finds its conversation's entry, at most half an hour old and with a model that fits, stays
      on that model, except that a complex turn whose entry is not marked complex goes to the complex pick;
      either way the decision cache is not touched, and a turn that stays renews the entry. */
  lemma StickyTurn(s: State, v: Visit, t: State, d: Decision)
    requires RouteStep(s, v, t, d) && v.sessionKey != "" && v.sessionKey in s.sessions
    requires v.now - s.sessions[v.sessionKey].at <= 1800.0
    requires exists c :: c in Pool(v) && c.name == s.sessions[v.sessionKey].decision.model
    ensures var entry := s.sessions[v.sessionKey].decision;
            var pick := HeuristicRoute(v.sig, Pool(v), v.cfg, v.draws.pick);
            && t.decisions == s.decisions
            && if v.sig.isComplex && !("complex" <= entry.detail) then
                 && d.model == pick.model
                 && (pick.model != entry.model ==>
                       Filed(s.sessions, v.sessionKey, Stamped(v.now, pick), t.sessions, 4096, 512))
               else
                 && d.model == entry.model
                 && t.sessions == s.sessions[v.sessionKey := Stamped(v.now, entry)]
  {
    var entry := s.sessions[v.sessionKey].decision;
    EntryIsLive(s.sessions, v);
    LiveTurn(s, v, t, d, entry);
    if Upgrades(entry, v) {
      RefiledOver(s.sessions, v.sessionKey, Stamped(v.now, entry), Stamped(v.now, d), t.sessions);
    }
  }

  lemma LiveTurn(s: State, v: Visit, t: State, d: Decision, entry: Decision)
    requires RouteStep(s, v, t, d) && LiveEntry(s.sessions, v.sessionKey, Pool(v), v.now) == Some(entry)
    ensures t.decisions == s.decisions
    ensures var looked := s.sessions[v.sessionKey := Stamped(v.now, entry)];
            if Upgrades(entry, v) then
              && d == HeuristicRoute(v.sig, Pool(v), v.cfg, v.draws.pick)
              && Filed(looked, v.sessionKey, Stamped(v.now, d), t.sessions, SESSION_MAX, SESSION_DROP)
            else d.model == entry.model && t.sessions == looked
  {
  }

  lemma RefiledOver(sessions: Cache, key: string, first: Stamped, second: Stamped, after: Cache)
    requires Filed(sessions[key := first], key, second, after, SESSION_MAX, SESSION_DROP)
    ensures Filed(sessions, key, second, after, SESSION_MAX, SESSION_DROP)
  {
    assert sessions[key := first][key := second] == sessions[key := second];
  }

  lemma EntryIsLive(sessions: Cache, v: Visit)
    requires v.sessionKey != "" && v.sessionKey in sessions && v.now - sessions[v.sessionKey].at <= 1800.0
    requires exists c :: c in Pool(v) && c.name == sessions[v.sessionKey].decision.model
    ensures LiveEntry(sessions, v.sessionKey, Pool(v), v.now) == Some(sessions[v.sessionKey].decision)
  {
    assert sessions[v.sessionKey].decision.model in NamesOf(Pool(v));
  }

  /** The entry of the turn's conversation, if it is more than half an hour old. */
  function Expiring(sessions: Cache, v: Visit): set<string> {
    if v.sessionKey in sessions && v.now - sessions[v.sessionKey].at > 1800.0 then {v.sessionKey} else {}
  }

  /** Any other turn is decided afresh, and the decision opens the conversation's entry, in a cache of 4096
      that drops its 512 oldest entries when it overflows. */
  lemma OpeningTurn(s: State, v: Visit, t: State, d: Decision)
    requires RouteStep(s, v, t, d)
    requires v.sessionKey == "" || v.sessionKey !in s.sessions || v.now - s.sessions[v.sessionKey].at > 1800.0
             || forall c :: c in Pool(v) ==> c.name != s.sessions[v.sessionKey].decision.model
    ensures FreshStep(s.decisions, AskOf(v), t.decisions, d)
    ensures v.sessionKey != "" && d.reason != Session ==>
              Filed(s.sessions - Expiring(s.sessions, v), v.sessionKey, Stamped(v.now, d), t.sessions, 4096, 512)
  {
    NoEntry(s.sessions, v);
  }

  lemma NoEntry(sessions: Cache, v: Visit)
    requires v.sessionKey == "" || v.sessionKey !in sessions || v.now - sessions[v.sessionKey].at > 1800.0
             || forall c :: c in Pool(v) ==> c.name != sessions[v.sessionKey].decision.model
    ensures LiveEntry(sessions, v.sessionKey, Pool(v), v.now).None?
    ensures v.sessionKey != "" ==>
              AfterGet(sessions, v.sessionKey, Pool(v), v.now) == sessions - Expiring(sessions, v)
  {
    assert sessions - {} == sessions;
  }

  // ----- the router -----------------------------------------------------------------------------------

  class AutoRouter {
    var cfg: Config
    var decisions: Cache
    var sessions: Cache

    constructor (cfg: Config)
      ensures decisions == map[] && sessions == map[] && this.cfg == cfg
    {
      this.cfg := cfg;
      decisions, sessions := map[], map[];
    }

    ghost function Caches(): State
      reads this
    {
      State(decisions, sessions)
    }

    /** `_remember`: file a decision, and drop the oldest ones when there are too many. */
    method Remember(key: string, d: Decision, now: real)
      modifies this`decisions
      ensures Filed(old(decisions), key, Stamped(now, d), decisions, CACHE_MAX, CACHE_DROP)
    {
      decisions := decisions[key := Stamped(now, d)];
      if |decisions| > CACHE_MAX {
        decisions := DropOldest(decisions, CACHE_DROP);
      }
    }

    /** `_route_fresh`: the cached decision, else the heuristic if it is confident, else the classifier,
        else the heuristic. */
    method RouteFresh(sig: Signals, cs: seq<Candidate>, draws: Draws, now: real) returns (d: Decision)
      requires cs != []
      modifies this`decisions
      ensures FreshStep(old(decisions), Ask(sig, cs, cfg, draws, now), decisions, d)
    {
      var key := "";
      if !sig.hasImages {
        key := CacheKey(Question(Clip(sig.text), SortedNames(cs), cfg));
        if key in decisions && now - decisions[key].at < CACHE_TTL {
          return decisions[key].decision;
        }
      }
      d := HeuristicRoute(sig, cs, cfg, draws.pick);
      if sig.confidence < CONFIDENT && draws.classified.Some? {
        d := Classified(cs, draws.classified.value);
      }
      if !sig.hasImages {
        Remember(key, d, now);
      }
    }

    /** `_session_get`: the live entry of a session whose model is still a candidate. */
    method SessionGet(key: string, cs: seq<Candidate>, now: real) returns (entry: Option<Decision>)
      modifies this`sessions
      ensures entry == LiveEntry(old(sessions), key, cs, now)
      ensures sessions == AfterGet(old(sessions), key, cs, now)
    {
      if key == "" || key !in sessions {
        return None;
      }
      var hit := sessions[key];
      if now - hit.at > SESSION_TTL {
        sessions := sessions - {key};
        return None;
      }
      if ByName(cs, hit.decision.model).None? {
        return None;
      }
      sessions := sessions[key := Stamped(now, hit.decision)];
      return Some(hit.decision);
    }

    method SessionPut(key: string, d: Decision, now: real)
      modifies this`sessions
      ensures SessionFiled(old(sessions), key, d, now, sessions)
      ensures if key == "" || d.reason == Session then sessions == old(sessions)
              else Filed(old(sessions), key, Stamped(now, d), sessions, 4096, 512)
    {
      if key == "" || d.reason == Session {
        return;
      }
      sessions := sessions[key := Stamped(now, d)];
      if |sessions| > SESSION_MAX {
        sessions := DropOldest(sessions, SESSION_DROP);
      }
    }

    method Route(sessionKey: string, sig: Signals, all: seq<Candidate>, needed: int, draws: Draws, now: real)
      returns (d: Decision)
      requires all != [] && (sig.hasImages ==> sessionKey == "")
      modifies this`decisions, this`sessions
      ensures RouteStep(old(Caches()), Visit(sessionKey, sig, all, needed, cfg, draws, now), Caches(), d)
    {
      var cs := Fitting(all, needed);
      var sticky := SessionGet(sessionKey, cs, now);
      if sticky.Some? {
        var entry := sticky.value;
        if sig.isComplex && !IsComplexDetail(entry.detail) {
          var upgraded := HeuristicRoute(sig, cs, cfg, draws.pick);
          if upgraded.model != entry.model {
            SessionPut(sessionKey, upgraded, now);
            return upgraded;
          }
        }
        return Decision(entry.model, Session, "sticky: " + entry.detail);
      }
      d := RouteFresh(sig, cs, draws, now);
      SessionPut(sessionKey, d, now);
    }
  }
}
