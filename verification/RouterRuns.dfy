/** What holds over every run of the auto router: when the decision cache can hand out a model that is not
    a candidate, and that conversations change their model at most once. */
module RouterRuns {
  import opened Prelude
  import opened AutoRouter

  // ----- runs of the decision cache -------------------------------------------------------------------

  /** Calls of `_route_fresh`, one after the other on a cache that starts empty. */
  ghost predicate FreshRun(caches: seq<Cache>, asks: seq<Ask>, answers: seq<Decision>) {
    && |caches| == |asks| + 1 && |answers| == |asks|
    && caches[0] == map[]
    && forall i: nat :: i < |asks| ==> FreshAt(caches, asks, answers, i)
  }

  ghost predicate FreshAt(caches: seq<Cache>, asks: seq<Ask>, answers: seq<Decision>, i: nat)
    requires i < |asks| == |answers| && |caches| == |asks| + 1
  {
    FreshStep(caches[i], asks[i], caches[i + 1], answers[i])
  }

  /** The run ends with an answer that is not one of the candidates. */
  ghost predicate EndsForeign(asks: seq<Ask>, answers: seq<Decision>) {
    asks != [] && |answers| == |asks| && Last(answers).model !in NamesOf(Last(asks).cs)
  }

  /** Every cached decision answered a question of some kind that is filed under its key. */
  ghost predicate Answers(cache: Cache, kind: Question -> bool) {
    forall k :: k in cache ==> AnsweredAt(k, cache[k].decision.model, kind)
  }

  ghost predicate AnsweredAt(key: string, model: string, kind: Question -> bool) {
    exists q: Question :: kind(q) && CacheKey(q) == key && model in q.names
  }

  /** One call keeps that up, and answers with a candidate unless another question has its key. */
  lemma FreshStepAnswers(before: Cache, a: Ask, after: Cache, d: Decision, kind: Question -> bool)
    requires Answers(before, kind) && FreshStep(before, a, after, d) && kind(QuestionOf(a))
    ensures Answers(after, kind)
    ensures d.model in NamesOf(a.cs) || AnsweredAt(CacheKey(QuestionOf(a)), d.model, kind)
  {
    var key := CacheKey(QuestionOf(a));
    if CachedDecision(before, a).None? {
      assert d.model in QuestionOf(a).names;
      forall k | k in after ensures AnsweredAt(k, after[k].decision.model, kind) {
        assert k != key ==> k in before && after[k] == before[k];
      }
    } else {
      assert AnsweredAt(key, before[key].decision.model, kind);
    }
  }

  lemma {:induction false} RunAnswers(caches: seq<Cache>, asks: seq<Ask>, answers: seq<Decision>,
                                      kind: Question -> bool, n: nat)
    requires FreshRun(caches, asks, answers) && n <= |asks|
    requires forall a :: a in asks ==> kind(QuestionOf(a))
    ensures Answers(caches[n], kind)
  {
    if n > 0 {
      RunAnswers(caches, asks, answers, kind, n - 1);
      assert FreshAt(caches, asks, answers, n - 1);
      FreshStepAnswers(caches[n - 1], asks[n - 1], caches[n], answers[n - 1], kind);
    }
  }

  /** A foreign answer comes from an earlier question with the same key. */
  lemma ForeignCollides(caches: seq<Cache>, asks: seq<Ask>, answers: seq<Decision>, kind: Question -> bool)
    requires FreshRun(caches, asks, answers) && EndsForeign(asks, answers)
    requires forall a :: a in asks ==> kind(QuestionOf(a))
    ensures AnsweredAt(CacheKey(QuestionOf(Last(asks))), Last(answers).model, kind)
  {
    var n := |asks| - 1;
    RunAnswers(caches, asks, answers, kind, n);
    assert FreshAt(caches, asks, answers, n);
    FreshStepAnswers(caches[n], asks[n], caches[n + 1], answers[n], kind);
  }

  // ----- two questions with one key ---------------------------------------------------------------------

  /** Two calls at one time whose questions share a key: the second is answered with the decision the first
      call made, so with no candidate if that is none of its own. */
  lemma CollisionMisroutes(first: Ask, second: Ask) returns (caches: seq<Cache>, answers: seq<Decision>)
    requires first.cs != [] && second.cs != [] && !first.sig.hasImages && !second.sig.hasImages
    requires CacheKey(QuestionOf(first)) == CacheKey(QuestionOf(second)) && first.now == second.now
    requires FreshDecision(map[], first).model !in NamesOf(second.cs)
    ensures FreshRun(caches, [first, second], answers) && EndsForeign([first, second], answers)
  {
    var d := FreshDecision(map[], first);
    var filed: Cache := map[CacheKey(QuestionOf(first)) := Stamped(first.now, d)];
    AskedFirst(first);
    AnsweredFromCache(filed, second, d);
    caches, answers := [map[], filed, filed], [d, d];
    TwoSteps(caches, [first, second], answers);
  }

  /** The first question of a run is decided afresh and filed. */
  lemma AskedFirst(a: Ask)
    requires a.cs != [] && !a.sig.hasImages
    ensures FreshStep(map[], a, map[CacheKey(QuestionOf(a)) := Stamped(a.now, FreshDecision(map[], a))],
                      FreshDecision(map[], a))
  {
    FiledFirst(CacheKey(QuestionOf(a)), Stamped(a.now, FreshDecision(map[], a)));
  }

  lemma SmallRemainder(j: nat, n: nat)
    requires j < n
    ensures j % n == j
  {
  }

  lemma FiledFirst(key: string, e: Stamped)
    ensures Filed(map[], key, e, map[key := e], CACHE_MAX, CACHE_DROP)
  {
    var full: Cache := map[key := e];
    assert |full| == 1;
  }

  lemma AnsweredFromCache(cache: Cache, a: Ask, d: Decision)
    requires a.cs != [] && !a.sig.hasImages
    requires CacheKey(QuestionOf(a)) in cache && cache[CacheKey(QuestionOf(a))] == Stamped(a.now, d)
    ensures FreshStep(cache, a, cache, d)
  {
  }

  lemma TwoSteps(caches: seq<Cache>, asks: seq<Ask>, answers: seq<Decision>)
    requires |asks| == |answers| == 2 && |caches| == 3 && caches[0] == map[]
    requires FreshStep(caches[0], asks[0], caches[1], answers[0])
    requires FreshStep(caches[1], asks[1], caches[2], answers[1])
    ensures FreshRun(caches, asks, answers)
  {
    assert FreshAt(caches, asks, answers, 0) && FreshAt(caches, asks, answers, 1);
  }

  /** A call about a prompt the heuristic is unsure about, for which the classifier picks the `j`-th model. */
  function Picking(text: string, cs: seq<Candidate>, j: nat, cfg: Config): Ask {
    Ask(Signals(text, false, false, false, false, 0.35), cs, cfg, Draws(0, Some(j)), 0.0)
  }

  lemma PickingPicks(text: string, cs: seq<Candidate>, j: nat, cfg: Config)
    requires j < |cs|
    ensures FreshDecision(map[], Picking(text, cs, j, cfg)).model == cs[j].name
  {
    SmallRemainder(j, |cs|);
    assert CachedDecision(map[], Picking(text, cs, j, cfg)).None?;
  }

  /** A call about a simple prompt, which the heuristic decides with confidence. */
  function Asking(text: string, cs: seq<Candidate>, cfg: Config): Ask {
    Ask(Signals(text, false, false, false, true, 0.75), cs, cfg, Draws(0, None), 0.0)
  }

  /** Asked about one model, the router answers with it. */
  lemma OnlyChoice(text: string, c: Candidate, cfg: Config)
    ensures FreshDecision(map[], Asking(text, [c], cfg)).model == c.name
  {
    var a := Asking(text, [c], cfg);
    assert CachedDecision(map[], a).None?;
    assert HeuristicRoute(a.sig, a.cs, a.cfg, a.draws.pick).model in NamesOf([c]);
  }

  /** `long` is some text of fewer than 800 characters, a bar, and `short`. */
  predicate EndsAfterBar(long: string, short: string) {
    var i := |long| - |short| - 1;
    0 <= i < TEXT_MAX && long[i] == BAR && long[i + 1..] == short
  }

  /** A text can make up the difference between two lists of names, within what is left of it after
      clipping. */
  predicate Overlap(a: string, b: string) {
    a == b || EndsAfterBar(a, b) || EndsAfterBar(b, a)
  }

  function Prefixed(q: Question): string { q.text + [BAR] + Join(q.names, COMMA) }

  function Rest(cfg: Config): string { [BAR] + cfg.defaultModel + [BAR] + cfg.mode + [BAR] + cfg.complexModel }

  lemma KeyIsPrefixed(q: Question)
    ensures CacheKey(q) == Prefixed(q) + Rest(q.cfg)
  {
  }

  /** Under one configuration two questions share a key exactly if they agree up to it. */
  lemma SameKeySamePrefix(a: Question, b: Question)
    requires a.cfg == b.cfg
    ensures CacheKey(a) == CacheKey(b) <==> Prefixed(a) == Prefixed(b)
  {
    KeyIsPrefixed(a);
    KeyIsPrefixed(b);
    if CacheKey(a) == CacheKey(b) {
      var n := |CacheKey(a)| - |Rest(a.cfg)|;
      assert Prefixed(a) == CacheKey(a)[..n] && Prefixed(b) == CacheKey(b)[..n];
    }
  }

  lemma LongerEndsAfterBar(a: Question, b: Question)
    requires Prefixed(a) == Prefixed(b) && |Join(a.names, COMMA)| > |Join(b.names, COMMA)|
    requires |b.text| <= TEXT_MAX
    ensures EndsAfterBar(Join(a.names, COMMA), Join(b.names, COMMA))
  {
    var p, x, y := Prefixed(a), Join(a.names, COMMA), Join(b.names, COMMA);
    var i, off := |x| - |y| - 1, |a.text| + 1;
    assert forall k :: 0 <= k < |x| ==> p[off + k] == x[k];
    assert p[|b.text|] == BAR && off + i == |b.text|;
    assert x[i + 1..] == p[off + i + 1..] == y;
  }

  /** Texts within the limit can give two lists of names one key exactly if the lists overlap. */
  lemma SharedKeyOverlaps(a: Question, b: Question)
    requires a.cfg == b.cfg && |a.text| <= TEXT_MAX && |b.text| <= TEXT_MAX && CacheKey(a) == CacheKey(b)
    ensures Overlap(Join(a.names, COMMA), Join(b.names, COMMA))
  {
    var x, y := Join(a.names, COMMA), Join(b.names, COMMA);
    SameKeySamePrefix(a, b);
    if |x| > |y| {
      LongerEndsAfterBar(a, b);
    } else if |y| > |x| {
      LongerEndsAfterBar(b, a);
    } else {
      assert x == Prefixed(a)[|a.text| + 1..] && y == Prefixed(b)[|b.text| + 1..];
    }
  }

  lemma OverlapSharesKey(a: seq<string>, b: seq<string>, cfg: Config) returns (ta: string, tb: string)
    requires Overlap(Join(a, COMMA), Join(b, COMMA))
    ensures |ta| <= TEXT_MAX && |tb| <= TEXT_MAX
    ensures CacheKey(Question(ta, a, cfg)) == CacheKey(Question(tb, b, cfg))
  {
    var x, y := Join(a, COMMA), Join(b, COMMA);
    ta, tb := "", "";
    if x != y {
      if EndsAfterBar(x, y) {
        tb := [BAR] + x[..|x| - |y| - 1];
        assert x == x[..|x| - |y| - 1] + [BAR] + y;
      } else {
        ta := [BAR] + y[..|y| - |x| - 1];
        assert y == y[..|y| - |x| - 1] + [BAR] + x;
      }
    }
    assert Prefixed(Question(ta, a, cfg)) == Prefixed(Question(tb, b, cfg));
    SameKeySamePrefix(Question(ta, a, cfg), Question(tb, b, cfg));
  }

  // ----- when the cache misroutes -----------------------------------------------------------------------

  /** Candidates with different names, all of them admissible. */
  ghost predicate Admissible(cs: seq<Candidate>, ok: string -> bool) {
    && cs != []
    && (forall i, j :: 0 <= i < j < |cs| ==> cs[i].name != cs[j].name)
    && (forall c :: c in cs ==> ok(c.name))
  }

  /** Some call of the router, all calls so far being about admissible names under one configuration, is
      answered with a model that is not a candidate. */
  ghost predicate CanMisroute(ok: string -> bool, cfg: Config) {
    exists caches: seq<Cache>, asks: seq<Ask>, answers: seq<Decision> ::
      FreshRun(caches, asks, answers) && EndsForeign(asks, answers) && AllAbout(asks, ok, cfg)
  }

  ghost predicate AllAbout(asks: seq<Ask>, ok: string -> bool, cfg: Config) {
    forall a :: a in asks ==> Admissible(a.cs, ok) && a.cfg == cfg
  }

  /** Two lists of admissible candidates whose names run into each other. */
  ghost predicate NamesClash(a: seq<Candidate>, b: seq<Candidate>, ok: string -> bool) {
    && Admissible(a, ok) && Admissible(b, ok)
    && !(NamesOf(b) <= NamesOf(a))
    && Overlap(Join(SortedNames(a), COMMA), Join(SortedNames(b), COMMA))
  }

  ghost predicate OfKind(q: Question, ok: string -> bool, cfg: Config) {
    |q.text| <= TEXT_MAX && q.cfg == cfg && exists cs :: Admissible(cs, ok) && q.names == SortedNames(cs)
  }

  /** The exact condition, on the names alone: the router can answer with a model that is not a candidate if
      and only if two lists of admissible candidates clash, one of them with a model the other lacks. */
  lemma MisroutesIffNamesClash(ok: string -> bool, cfg: Config)
    ensures CanMisroute(ok, cfg) <==> exists a, b :: NamesClash(a, b, ok)
  {
    if CanMisroute(ok, cfg) {
      var caches, asks, answers :|
        FreshRun(caches, asks, answers) && EndsForeign(asks, answers) && AllAbout(asks, ok, cfg);
      MisroutingClashes(caches, asks, answers, ok, cfg);
    }
    if a, b :| NamesClash(a, b, ok) {
      ClashMisroutes(a, b, ok, cfg);
    }
  }

  lemma MisroutingClashes(caches: seq<Cache>, asks: seq<Ask>, answers: seq<Decision>, ok: string -> bool, cfg: Config)
    requires FreshRun(caches, asks, answers) && EndsForeign(asks, answers)
    requires AllAbout(asks, ok, cfg)
    ensures exists a, b :: NamesClash(a, b, ok)
  {
    var kind := (q: Question) => OfKind(q, ok, cfg);
    forall a | a in asks ensures kind(QuestionOf(a)) {
      assert Admissible(a.cs, ok) && QuestionOf(a).names == SortedNames(a.cs);
    }
    ForeignCollides(caches, asks, answers, kind);
    var a, model := Last(asks), Last(answers).model;
    var q :| kind(q) && CacheKey(q) == CacheKey(QuestionOf(a)) && model in q.names;
    var b :| Admissible(b, ok) && q.names == SortedNames(b);
    SharedKeyOverlaps(QuestionOf(a), q);
    assert model in NamesOf(b) && model !in NamesOf(a.cs);
    assert NamesClash(a.cs, b, ok);
  }

  lemma ClashMisroutes(a: seq<Candidate>, b: seq<Candidate>, ok: string -> bool, cfg: Config)
    requires NamesClash(a, b, ok)
    ensures CanMisroute(ok, cfg)
  {
    var name :| name in NamesOf(b) && name !in NamesOf(a);
    var c :| c in b && c.name == name;
    var j :| 0 <= j < |b| && b[j] == c;
    var ta, tb := OverlapSharesKey(SortedNames(a), SortedNames(b), cfg);
    PickingPicks(tb, b, j, cfg);
    var first, second := Picking(tb, b, j, cfg), Picking(ta, a, 0, cfg);
    var caches, answers := CollisionMisroutes(first, second);
    assert AllAbout([first, second], ok, cfg);
  }

  // ----- which characters a name may contain --------------------------------------------------------------

  /** A name over an alphabet, as a rule for model names would admit it. */
  predicate Over(alphabet: set<char>, name: string) {
    name != "" && forall c :: c in name ==> c in alphabet
  }

  /** Names in the configuration may be missing; the mode is one of two words. */
  predicate ConfigOver(alphabet: set<char>, cfg: Config) {
    && (cfg.defaultModel == "" || Over(alphabet, cfg.defaultModel))
    && (cfg.complexModel == "" || Over(alphabet, cfg.complexModel))
    && (cfg.mode == FIXED || cfg.mode == RANDOM)
  }

  ghost predicate AskOver(alphabet: set<char>, a: Ask) {
    Admissible(a.cs, n => Over(alphabet, n)) && ConfigOver(alphabet, a.cfg)
  }

  ghost predicate AllOver(alphabet: set<char>, asks: seq<Ask>) {
    forall a :: a in asks ==> AskOver(alphabet, a)
  }

  /** A rule that admits all names over an alphabet, for models and in the configuration, which may be
      changed from call to call, keeps every answer among the candidates if and only if the alphabet has
      neither the comma nor the bar. */
  lemma AlphabetMisroutesIff(alphabet: set<char>)
    ensures (exists caches: seq<Cache>, asks: seq<Ask>, answers: seq<Decision> ::
               FreshRun(caches, asks, answers) && EndsForeign(asks, answers) && AllOver(alphabet, asks))
       <==> COMMA in alphabet || BAR in alphabet
  {
    if COMMA !in alphabet && BAR !in alphabet {
      forall caches, asks, answers | FreshRun(caches, asks, answers) && AllOver(alphabet, asks)
        ensures !EndsForeign(asks, answers)
      {
        CleanNamesStay(alphabet, caches, asks, answers);
      }
    } else {
      var ok := n => Over(alphabet, n);
      var cfg := Config("", RANDOM, "");
      var a, b := PunctuationClashes(alphabet);
      ClashMisroutes(a, b, ok, cfg);
      var caches, asks, answers :|
        FreshRun(caches, asks, answers) && EndsForeign(asks, answers) && AllAbout(asks, ok, cfg);
      assert AllOver(alphabet, asks);
    }
  }

  lemma CleanNamesStay(alphabet: set<char>, caches: seq<Cache>, asks: seq<Ask>, answers: seq<Decision>)
    requires COMMA !in alphabet && BAR !in alphabet
    requires FreshRun(caches, asks, answers) && AllOver(alphabet, asks)
    ensures !EndsForeign(asks, answers)
  {
    if EndsForeign(asks, answers) {
      var kind := (q: Question) => Unambiguous(q);
      forall a | a in asks ensures kind(QuestionOf(a)) { CleanIsUnambiguous(alphabet, a); }
      ForeignCollides(caches, asks, answers, kind);
      var q :| kind(q) && CacheKey(q) == CacheKey(QuestionOf(Last(asks))) && Last(answers).model in q.names;
      KeyDeterminesNames(q, QuestionOf(Last(asks)));
    }
  }

  lemma CleanIsUnambiguous(alphabet: set<char>, a: Ask)
    requires COMMA !in alphabet && BAR !in alphabet && AskOver(alphabet, a)
    ensures Unambiguous(QuestionOf(a))
  {
    var names := QuestionOf(a).names;
    forall n | n in names ensures COMMA !in n && BAR !in n {
      var c :| c in a.cs && c.name == n;
      assert Over(alphabet, c.name);
    }
  }

  function Plain(name: string): Candidate { Candidate(name, 0, false, false, 0.0, 0.0) }

  /** Commas alone make two lists run into each other, and so do bars alone. */
  lemma PunctuationClashes(alphabet: set<char>) returns (a: seq<Candidate>, b: seq<Candidate>)
    requires COMMA in alphabet || BAR in alphabet
    ensures NamesClash(a, b, n => Over(alphabet, n))
  {
    if COMMA in alphabet {
      a, b := [Plain(",,,,")], [Plain(","), Plain(",,")];
      CommasClash(alphabet);
    } else {
      a, b := [Plain("|||")], [Plain("|")];
      BarsClash(alphabet);
    }
  }

  lemma CommasClash(alphabet: set<char>)
    requires COMMA in alphabet
    ensures NamesClash([Plain(",,,,")], [Plain(","), Plain(",,")], n => Over(alphabet, n))
  {
    var b := [Plain(","), Plain(",,")];
    CommasOverlap();
    assert b[0] in b && b[0].name in NamesOf(b);
  }

  lemma BarsClash(alphabet: set<char>)
    requires BAR in alphabet
    ensures NamesClash([Plain("|||")], [Plain("|")], n => Over(alphabet, n))
  {
    var b := [Plain("|")];
    BarsOverlap();
    assert b[0] in b && b[0].name in NamesOf(b);
  }

  lemma CommasOverlap()
    ensures Overlap(Join(SortedNames([Plain(",,,,")]), COMMA), Join(SortedNames([Plain(","), Plain(",,")]), COMMA))
  {
    OneName(Plain(",,,,"));
    TwoNames(Plain(","), Plain(",,"));
    JoinTwo(",", ",,");
  }

  lemma BarsOverlap()
    ensures Overlap(Join(SortedNames([Plain("|||")]), COMMA), Join(SortedNames([Plain("|")]), COMMA))
  {
    OneName(Plain("|||"));
    OneName(Plain("|"));
    assert EndsAfterBar("|||", "|");
  }

  lemma OneName(c: Candidate)
    ensures SortedNames([c]) == [c.name] && Join([c.name], COMMA) == c.name
  {
    assert Front([c]) == [];
  }

  lemma JoinTwo(m: string, n: string)
    ensures Join([m, n], COMMA) == m + [COMMA] + n
  {
    assert [m, n][1..] == [n];
  }

  lemma TwoNames(c: Candidate, d: Candidate)
    requires !StrLess(d.name, c.name)
    ensures SortedNames([c, d]) == [c.name, d.name]
  {
    OneName(c);
    assert Front([c, d]) == [c];
    assert InsertName([c.name], d.name) == [c.name] + InsertName([], d.name);
  }

  /** A run that misroutes because of a comma: asked about the models `a` and `b`, the router answers with
      the model `a,b` it chose for another caller. */
  lemma CommaMisroutes(cfg: Config) returns (caches: seq<Cache>, answers: seq<Decision>)
    ensures var asks := [Asking("hi", [Plain("a,b")], cfg), Asking("hi", [Plain("a"), Plain("b")], cfg)];
            FreshRun(caches, asks, answers) && EndsForeign(asks, answers)
  {
    var a, b := [Plain("a"), Plain("b")], [Plain("a,b")];
    TwoNames(a[0], a[1]);
    OneName(b[0]);
    JoinTwo("a", "b");
    OnlyChoice("hi", b[0], cfg);
    caches, answers := CollisionMisroutes(Asking("hi", b, cfg), Asking("hi", a, cfg));
  }

  /** A run that misroutes because of a bar: asked `hi|a` about the model `b`, the router answers with the
      model `a|b` it chose for `hi`. */
  lemma BarMisroutes(cfg: Config) returns (caches: seq<Cache>, answers: seq<Decision>)
    ensures var asks := [Asking("hi", [Plain("a|b")], cfg), Asking("hi|a", [Plain("b")], cfg)];
            FreshRun(caches, asks, answers) && EndsForeign(asks, answers)
  {
    var a, b := [Plain("b")], [Plain("a|b")];
    OneName(a[0]);
    OneName(b[0]);
    var qa, qb := Question("hi|a", ["b"], cfg), Question("hi", ["a|b"], cfg);
    assert Prefixed(qa) == "hi|a|b" == Prefixed(qb);
    SameKeySamePrefix(qa, qb);
    OnlyChoice("hi", b[0], cfg);
    caches, answers := CollisionMisroutes(Asking("hi", b, cfg), Asking("hi|a", a, cfg));
  }

  // ----- runs of the whole router -------------------------------------------------------------------------

  /** Calls of `route` by any number of conversations, one after the other on caches that start empty. */
  ghost predicate RouteRun(states: seq<State>, visits: seq<Visit>, answers: seq<Decision>) {
    && |states| == |visits| + 1 && |answers| == |visits|
    && if visits == [] then states[0] == State(map[], map[])
       else
         && RouteRun(Front(states), Front(visits), Front(answers))
         && RouteStep(Last(Front(states)), Last(visits), Last(states), Last(answers))
  }

  ghost predicate VisitOver(alphabet: set<char>, v: Visit) {
    AskOver(alphabet, AskOf(v))
  }

  /** With names free of commas and bars every turn of every conversation is routed to a model that fits
      the request, through both caches. */
  lemma {:induction false} RoutesStayInPool(alphabet: set<char>, states: seq<State>, visits: seq<Visit>,
                                            answers: seq<Decision>)
    requires COMMA !in alphabet && BAR !in alphabet
    requires RouteRun(states, visits, answers) && forall v :: v in visits ==> VisitOver(alphabet, v)
    ensures Answers(Last(states).decisions, Unambiguous)
    ensures visits != [] ==> Last(answers).model in NamesOf(Pool(Last(visits)))
  {
    if visits != [] {
      var before, v := Last(Front(states)), Last(visits);
      assert v in visits && forall w :: w in Front(visits) ==> w in visits;
      RoutesStayInPool(alphabet, Front(states), Front(visits), Front(answers));
      CleanIsUnambiguous(alphabet, AskOf(v));
      if LiveEntry(before.sessions, v.sessionKey, Pool(v), v.now).None? {
        FreshStepAnswers(before.decisions, AskOf(v), Last(states).decisions, Last(answers), Unambiguous);
        CleanAnswerStays(AskOf(v), Last(answers));
      }
    }
  }

  lemma CleanAnswerStays(a: Ask, d: Decision)
    requires Unambiguous(QuestionOf(a))
    requires d.model in NamesOf(a.cs) || AnsweredAt(CacheKey(QuestionOf(a)), d.model, Unambiguous)
    ensures d.model in NamesOf(a.cs)
  {
    if d.model !in NamesOf(a.cs) {
      var q :| Unambiguous(q) && CacheKey(q) == CacheKey(QuestionOf(a)) && d.model in q.names;
      KeyDeterminesNames(q, QuestionOf(a));
    }
  }

  // ----- bounded caches -----------------------------------------------------------------------------------

  lemma FiledBounds(before: Cache, key: string, e: Stamped, after: Cache, max: nat, drop: nat)
    requires |before| <= max && 0 < drop <= max && Filed(before, key, e, after, max, drop)
    ensures |after| <= max
    ensures |before| < max || key in before ==> after == before[key := e]
    ensures |before| == max && key !in before ==> |after| == max + 1 - drop
  {
    assert before[key := e].Keys == before.Keys + {key};
  }

  lemma GetKeepsSize(sessions: Cache, key: string, cs: seq<Candidate>, now: real)
    ensures |AfterGet(sessions, key, cs, now)| <= |sessions|
  {
    var after := AfterGet(sessions, key, cs, now);
    assert after.Keys <= sessions.Keys;
    SubsetSize(after.Keys, sessions.Keys);
  }

  /** In every run the router holds at most 512 decisions and 4096 conversations. */
  lemma {:induction false} CachesBounded(states: seq<State>, visits: seq<Visit>, answers: seq<Decision>)
    requires RouteRun(states, visits, answers)
    ensures |Last(states).decisions| <= 512 && |Last(states).sessions| <= 4096
  {
    if visits != [] {
      CachesBounded(Front(states), Front(visits), Front(answers));
      BoundedStep(Last(Front(states)), Last(visits), Last(states), Last(answers));
    }
  }

  lemma BoundedStep(s: State, v: Visit, t: State, d: Decision)
    requires RouteStep(s, v, t, d) && |s.decisions| <= 512 && |s.sessions| <= 4096
    ensures |t.decisions| <= 512 && |t.sessions| <= 4096
  {
    var looked := AfterGet(s.sessions, v.sessionKey, Pool(v), v.now);
    GetKeepsSize(s.sessions, v.sessionKey, Pool(v), v.now);
    var entry, key := LiveEntry(s.sessions, v.sessionKey, Pool(v), v.now), CacheKey(QuestionOf(AskOf(v)));
    if entry.None? && !v.sig.hasImages && CachedDecision(s.decisions, AskOf(v)).None? {
      FiledBounds(s.decisions, key, Stamped(v.now, d), t.decisions, CACHE_MAX, CACHE_DROP);
    }
    if t.sessions != looked {
      FiledBounds(looked, v.sessionKey, Stamped(v.now, d), t.sessions, SESSION_MAX, SESSION_DROP);
    }
  }

  // ----- sticky sessions --------------------------------------------------------------------------------

  /** The model the last turn of a conversation was routed to, if it had any turn. */
  function LastModel(visits: seq<Visit>, answers: seq<Decision>, key: string): Option<string>
    requires |visits| == |answers|
  {
    if visits == [] then None
    else if Last(visits).sessionKey == key then Some(Last(answers).model)
    else LastModel(Front(visits), Front(answers), key)
  }

  /** The last turn of the run belongs to the conversation and was routed elsewhere than the one before. */
  predicate Switched(visits: seq<Visit>, answers: seq<Decision>, key: string)
    requires |visits| == |answers|
  {
    && visits != [] && Last(visits).sessionKey == key
    && var was := LastModel(Front(visits), Front(answers), key);
       was.Some? && was.value != Last(answers).model
  }

  /** How often the routed model of a conversation changed. */
  function Switches(visits: seq<Visit>, answers: seq<Decision>, key: string): nat
    requires |visits| == |answers|
  {
    if visits == [] then 0
    else Switches(Front(visits), Front(answers), key) + (if Switched(visits, answers, key) then 1 else 0)
  }

  /** When the last turn of a conversation was, if it had any turn. */
  function LastTurnAt(visits: seq<Visit>, key: string): Option<real> {
    if visits == [] then None
    else if Last(visits).sessionKey == key then Some(Last(visits).now)
    else LastTurnAt(Front(visits), key)
  }

  /** Every turn of the conversation but the first comes at most half an hour after the one before, finds its
      entry not dropped from a full cache, and can be served by the model of the turn before. */
  ghost predicate StaysLive(states: seq<State>, visits: seq<Visit>, answers: seq<Decision>, key: string)
    requires |states| == |visits| + 1 && |answers| == |visits|
  {
    visits == []
    || (&& StaysLive(Front(states), Front(visits), Front(answers), key)
        && var v := Last(visits);
           var model, at := LastModel(Front(visits), Front(answers), key), LastTurnAt(Front(visits), key);
           (v.sessionKey == key && model.Some? && at.Some? ==>
              && key in Last(Front(states)).sessions
              && v.now - at.value <= 1800.0
              && model.value in NamesOf(Pool(v))))
  }

  ghost predicate NoStickyReason(cache: Cache) {
    forall k :: k in cache ==> cache[k].decision.reason != Session
  }

  /** The entry of a conversation, if it is still there, is the decision its last turn was routed by; after
      a change it is a complex one. */
  ghost predicate EntryOk(s: State, last: Option<string>, at: Option<real>, switches: nat, key: string) {
    && NoStickyReason(s.decisions)
    && switches <= (if last.None? then 0 else 1)
    && (last.Some? <==> at.Some?)
    && (key in s.sessions ==>
          && last == Some(s.sessions[key].decision.model) && at == Some(s.sessions[key].at)
          && (switches == 1 ==> IsComplexDetail(s.sessions[key].decision.detail)))
  }

  lemma EntryStep(s: State, v: Visit, t: State, d: Decision, last: Option<string>, at: Option<real>, switches: nat,
                  key: string)
    requires RouteStep(s, v, t, d) && key != "" && EntryOk(s, last, at, switches, key)
    requires v.sessionKey == key && last.Some? ==>
               key in s.sessions && v.now - at.value <= 1800.0 && last.value in NamesOf(Pool(v))
    ensures var switched := v.sessionKey == key && last.Some? && last.value != d.model;
            && EntryOk(t, if v.sessionKey == key then Some(d.model) else last,
                       if v.sessionKey == key then Some(v.now) else at,
                       if switched then switches + 1 else switches, key)
            && (switched ==> v.sig.isComplex && IsComplexDetail(d.detail))
  {
    ReasonStep(s, v, t, d);
    if v.sessionKey == key {
      OwnTurn(s, v, t, d);
    } else {
      OtherTurn(s, v, t, d, key);
    }
  }

  /** Sessions only upgrade: in any run of the router, with any number of other conversations in between, a
      conversation whose entry stays live is routed to another model at most once, by a complex turn whose
      pick is marked complex. */
  lemma {:induction false} SessionsUpgradeOnce(states: seq<State>, visits: seq<Visit>, answers: seq<Decision>,
                                               key: string)
    requires RouteRun(states, visits, answers) && key != "" && StaysLive(states, visits, answers, key)
    ensures Switches(visits, answers, key) <= 1
    ensures Switched(visits, answers, key) ==> Last(visits).sig.isComplex && IsComplexDetail(Last(answers).detail)
    ensures EntryOk(Last(states), LastModel(visits, answers, key), LastTurnAt(visits, key),
                    Switches(visits, answers, key), key)
  {
    if visits != [] {
      var before, picks := Front(visits), Front(answers);
      SessionsUpgradeOnce(Front(states), before, picks, key);
      EntryStep(Last(Front(states)), Last(visits), Last(states), Last(answers),
                LastModel(before, picks, key), LastTurnAt(before, key), Switches(before, picks, key), key);
    }
  }

  /** No cached decision is a sticky answer. */
  lemma ReasonStep(s: State, v: Visit, t: State, d: Decision)
    requires RouteStep(s, v, t, d) && NoStickyReason(s.decisions)
    ensures NoStickyReason(t.decisions)
    ensures LiveEntry(s.sessions, v.sessionKey, Pool(v), v.now).None? ==> d.reason != Session
  {
    if LiveEntry(s.sessions, v.sessionKey, Pool(v), v.now).None? {
      FreshReason(s.decisions, AskOf(v), t.decisions, d);
    }
  }

  lemma FreshReason(before: Cache, a: Ask, after: Cache, d: Decision)
    requires FreshStep(before, a, after, d) && NoStickyReason(before)
    ensures NoStickyReason(after) && d.reason != Session
  {
    assert CachedDecision(before, a).Some? ==> d.reason != Session;
  }

  /** A turn of another conversation leaves an entry alone or drops it. */
  lemma OtherTurn(s: State, v: Visit, t: State, d: Decision, key: string)
    requires RouteStep(s, v, t, d) && key != v.sessionKey
    ensures key in t.sessions ==> key in s.sessions && t.sessions[key] == s.sessions[key]
  {
  }

  /** A turn of the conversation itself: a fresh one files its decision, an upgrade files the complex pick,
      and any other leaves the entry's decision as it was. */
  lemma OwnTurn(s: State, v: Visit, t: State, d: Decision)
    requires RouteStep(s, v, t, d) && v.sessionKey != "" && NoStickyReason(s.decisions)
    ensures var entry := LiveEntry(s.sessions, v.sessionKey, Pool(v), v.now);
            && (v.sessionKey in t.sessions ==>
                  t.sessions[v.sessionKey].decision.model == d.model && t.sessions[v.sessionKey].at == v.now)
            && (entry.Some? && d.model != entry.value.model ==>
                  v.sig.isComplex && IsComplexDetail(d.detail) && !IsComplexDetail(entry.value.detail)
                  && (v.sessionKey in t.sessions ==> t.sessions[v.sessionKey].decision == d))
            && (entry.Some? && d.model == entry.value.model ==>
                t.sessions[v.sessionKey := Stamped(v.now, entry.value)] == t.sessions)
  {
  }
}
