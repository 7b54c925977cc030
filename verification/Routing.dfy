/** Deployment selection and the fallback chain. */
module Routing {
  import opened Prelude
  import opened Models

  // ----- selecting a deployment -----------------------------------------------------------------

  /** Python's `min(deps, key=...)`: the first of the least elements. */
  function ArgMin(deps: seq<Deployment>, key: Deployment -> real): (i: nat)
    requires deps != []
    ensures i < |deps|
    ensures forall j :: 0 <= j < |deps| ==> key(deps[i]) <= key(deps[j])
    ensures forall j :: 0 <= j < i ==> key(deps[i]) < key(deps[j])
  {
    if |deps| == 1 then 0
    else
      var i := ArgMin(Front(deps), key);
      if key(Last(deps)) < key(deps[i]) then |deps| - 1 else i
  }

  // ----- remainders -----------------------------------------------------------------------------

  /** `a % n`, by repeated subtraction. */
  function Rem(a: nat, n: nat): (r: nat)
    requires n > 0
    ensures r < n
  {
    if a < n then a else Rem(a - n, n)
  }

  /** `a / n`. */
  function Quot(a: nat, n: nat): nat
    requires n > 0
  {
    if a < n then 0 else Quot(a - n, n) + 1
  }

  lemma {:induction false} DivMod(a: nat, n: nat)
    requires n > 0
    ensures Rem(a, n) == a % n && Quot(a, n) == a / n
  {
    if a < n {
      UniqueModulus(a, n, 0, a);
    } else {
      DivMod(a - n, n);
      ShiftModulus(a - n, n);
    }
  }

  lemma MulGap(a: nat, b: nat, n: nat)
    requires a < b
    ensures a * n + n <= b * n
  {
    assert b * n == (a + 1) * n + (b - a - 1) * n;
  }

  /** Division with remainder is unique. */
  lemma UniqueModulus(a: nat, n: nat, q: nat, r: nat)
    requires n > 0 && r < n && a == q * n + r
    ensures a % n == r && a / n == q
  {
    if q < a / n {
      MulGap(q, a / n, n);
    } else if a / n < q {
      MulGap(a / n, q, n);
    }
  }

  lemma ShiftModulus(a: nat, n: nat)
    requires n > 0
    ensures (a + n) % n == a % n && (a + n) / n == a / n + 1
  {
    assert (a / n + 1) * n == (a / n) * n + n;
    UniqueModulus(a + n, n, a / n + 1, a % n);
  }

  // ----- the deployments ------------------------------------------------------------------------

  /** The deployments a request may use at all. */
  function Usable(model: Model): seq<Deployment> {
    Filter(model.deployments, (d: Deployment) => d.baseUrl != "")
  }

  function UsableUrls(model: Model): set<string> {
    set d | d in Usable(model) :: d.baseUrl
  }

  /** Those left after the exclusion, unless it would leave none. */
  function NotExcluded(deps: seq<Deployment>, exclude: set<string>): seq<Deployment> {
    var remaining := Filter(deps, (d: Deployment) => d.baseUrl !in exclude);
    if remaining != [] then remaining else deps
  }

  /** What the selection reads from its surroundings: circuit admission, the time of the last
      failure, the load per upstream, the round-robin counter and the random draw. */
  datatype Surroundings = Surroundings(
    allow: Deployment -> bool,
    lastFailure: Deployment -> real,
    busy: string -> int,
    counter: nat,
    draw: nat)

  /** `select_deployment` as the request handler calls it, with a circuit gate. */
  function SelectDeployment(model: Model, exclude: set<string>, env: Surroundings): (dep: Option<Deployment>)
    ensures dep.None? <==> UsableUrls(model) == {}
    ensures dep.Some? ==> dep.value in model.deployments && dep.value.baseUrl in UsableUrls(model)
    ensures dep.Some? && dep.value.baseUrl in exclude ==> UsableUrls(model) <= exclude
  {
    var usable := Usable(model);
    assert usable == [] <==> UsableUrls(model) == {} by {
      if usable != [] { assert usable[0] in usable && usable[0].baseUrl in UsableUrls(model); }
    }
    if usable == [] then None
    else
      var deps := NotExcluded(usable, exclude);
      var admitted := Filter(deps, env.allow);
      if admitted == [] then Some(deps[ArgMin(deps, env.lastFailure)])
      else Some(ByStrategy(model.strategy, admitted, env))
  }

  function ByStrategy(strategy: Strategy, deps: seq<Deployment>, env: Surroundings): (dep: Deployment)
    requires deps != []
    ensures dep in deps
  {
    match strategy
    case LeastBusy => deps[ArgMin(deps, (d: Deployment) => env.busy(d.baseUrl) as real)]
    case Weighted => deps[Rem(env.draw, |deps|)]
    case Priority => deps[ArgMin(deps, (d: Deployment) => d.priority as real)]
    case RoundRobin => deps[Rem(env.counter, |deps|)]
    case First => deps[0]
  }

  // ----- what is selected ---------------------------------------------------------------------------

  /** A deployment the request may be sent to, whatever its circuit says: it has an address, and is not
      excluded unless every deployment with an address is. */
  predicate Eligible(model: Model, exclude: set<string>, d: Deployment) {
    d.baseUrl != ""
    && (d.baseUrl in exclude ==> forall x :: x in model.deployments && x.baseUrl != "" ==> x.baseUrl in exclude)
  }

  /** The eligible deployments, in the order they are configured. */
  function Eligibles(model: Model, exclude: set<string>): (r: seq<Deployment>)
    ensures forall d :: d in r <==> d in model.deployments && Eligible(model, exclude, d)
  {
    Filter(model.deployments, (d: Deployment) => Eligible(model, exclude, d))
  }

  /** Those of them whose circuit admits the request. */
  function AdmittedOf(model: Model, exclude: set<string>, allow: Deployment -> bool): (r: seq<Deployment>)
    ensures forall d :: d in r <==> d in model.deployments && Eligible(model, exclude, d) && allow(d)
  {
    Filter(model.deployments, (d: Deployment) => Eligible(model, exclude, d) && allow(d))
  }

  /** The first of the least deployments of a list. */
  ghost predicate FirstLeast(d: Deployment, deps: seq<Deployment>, key: Deployment -> real) {
    exists i: nat :: i < |deps| && deps[i] == d && LeastAt(deps, key, i)
  }

  ghost predicate LeastAt(deps: seq<Deployment>, key: Deployment -> real, i: nat)
    requires i < |deps|
  {
    forall j: nat :: j < |deps| ==> key(deps[i]) <= key(deps[j]) && (j < i ==> key(deps[i]) < key(deps[j]))
  }

  lemma ArgMinIsFirstLeast(deps: seq<Deployment>, key: Deployment -> real)
    requires deps != []
    ensures FirstLeast(deps[ArgMin(deps, key)], deps, key)
  {
    assert LeastAt(deps, key, ArgMin(deps, key));
  }

  /** The two filters of the code leave the eligible deployments, and the third the admitted ones. */
  lemma LeftAreEligible(model: Model, exclude: set<string>, allow: Deployment -> bool)
    ensures NotExcluded(Usable(model), exclude) == Eligibles(model, exclude)
    ensures Filter(NotExcluded(Usable(model), exclude), allow) == AdmittedOf(model, exclude, allow)
  {
    var ds, usable := model.deployments, (d: Deployment) => d.baseUrl != "";
    var notFailed := (d: Deployment) => d.baseUrl !in exclude;
    var eligible := (d: Deployment) => Eligible(model, exclude, d);
    var remaining := Filter(Usable(model), notFailed);
    if remaining != [] {
      assert remaining[0] in remaining;
      FilterTwice(ds, usable, notFailed, eligible);
    } else {
      forall x | x in ds && x.baseUrl != "" ensures x.baseUrl in exclude {
        assert x in Usable(model) && x !in remaining;
      }
      FilterSame(ds, usable, eligible);
    }
    FilterTwice(ds, eligible, allow, (d: Deployment) => Eligible(model, exclude, d) && allow(d));
  }

  /** What is selected, in full. Nothing is selected exactly if no deployment is eligible. If any eligible
      deployment's circuit admits the request the strategy chooses among those, in configured order: the
      first of the least loaded, the first of the highest priority, the one whose turn or draw it is, or the
      first. If every circuit is open it is the one that failed least recently. */
  lemma GateRespected(model: Model, exclude: set<string>, env: Surroundings)
    ensures var dep := SelectDeployment(model, exclude, env);
            var eligible, admitted := Eligibles(model, exclude), AdmittedOf(model, exclude, env.allow);
            && (dep.None? <==> eligible == [])
            && (eligible != [] && admitted == [] ==> dep.Some? && FirstLeast(dep.value, eligible, env.lastFailure))
            && (admitted != [] ==> dep.Some? && Chosen(model.strategy, dep.value, admitted, env))
  {
    LeftAreEligible(model, exclude, env.allow);
    var eligible, admitted := Eligibles(model, exclude), AdmittedOf(model, exclude, env.allow);
    if eligible != [] {
      assert eligible[0] in eligible && eligible[0] in Usable(model);
      if admitted == [] {
        ArgMinIsFirstLeast(eligible, env.lastFailure);
      } else {
        ChosenByStrategy(model.strategy, admitted, env);
      }
    } else {
      assert Usable(model) != [] ==> NotExcluded(Usable(model), exclude) != [];
    }
  }

  /** How each strategy chooses. */
  ghost predicate Chosen(strategy: Strategy, d: Deployment, admitted: seq<Deployment>, env: Surroundings)
    requires admitted != []
  {
    match strategy
    case LeastBusy => FirstLeast(d, admitted, (x: Deployment) => env.busy(x.baseUrl) as real)
    case Weighted => d == admitted[env.draw % |admitted|]
    case Priority => FirstLeast(d, admitted, (x: Deployment) => x.priority as real)
    case RoundRobin => d == admitted[env.counter % |admitted|]
    case First => d == admitted[0]
  }

  lemma ChosenByStrategy(strategy: Strategy, admitted: seq<Deployment>, env: Surroundings)
    requires admitted != []
    ensures Chosen(strategy, ByStrategy(strategy, admitted, env), admitted, env)
  {
    match strategy
    case LeastBusy => ArgMinIsFirstLeast(admitted, (x: Deployment) => env.busy(x.baseUrl) as real);
    case Weighted => DivMod(env.draw, |admitted|);
    case Priority => ArgMinIsFirstLeast(admitted, (x: Deployment) => x.priority as real);
    case RoundRobin => DivMod(env.counter, |admitted|);
    case First =>
  }

  // ----- round robin ----------------------------------------------------------------------------

  /** One selection event: which model drew from the shared counters. */
  function Counter(calls: seq<string>, model: string): nat {
    if calls == [] then 0
    else Counter(Front(calls), model) + (if Last(calls) == model then 1 else 0)
  }

  /** One call of `select_deployment`; the counter it meets is the shared one. */
  datatype Request = Request(model: Model, exclude: set<string>, env: Surroundings)

  /** The deployments a strategy chooses among. */
  function Admitted(req: Request): seq<Deployment> {
    AdmittedOf(req.model, req.exclude, req.env.allow)
  }

  predicate DrawsCounter(req: Request) {
    req.model.strategy.RoundRobin? && Admitted(req) != []
  }

  /** A request together with what became of it: whether it drew a number, and what was selected. */
  datatype Selection = Selection(req: Request, drew: bool, dep: Option<Deployment>)

  /** The models that drew a number in a run of selections, in order. */
  function Draws(sels: seq<Selection>): seq<string> {
    if sels == [] then [] else Draws(Front(sels)) + (if Last(sels).drew then [Last(sels).req.model.name] else [])
  }

  /** The deployment selected for a request once the models `draws` drew. */
  function Picked(draws: seq<string>, req: Request): Option<Deployment> {
    SelectDeployment(
      req.model, req.exclude,
      if DrawsCounter(req) then req.env.(counter := Counter(draws, req.model.name)) else req.env)
  }

  /** Every selection of the run is the one the run before it calls for. */
  ghost predicate IsRun(sels: seq<Selection>) {
    forall i: nat :: i < |sels| ==> SelectedAt(sels, i)
  }

  ghost predicate SelectedAt(sels: seq<Selection>, i: nat)
    requires i < |sels|
  {
    sels[i].drew == DrawsCounter(sels[i].req) && sels[i].dep == Picked(Draws(sels[..i]), sels[i].req)
  }

  lemma RunGrows(sels: seq<Selection>, sel: Selection)
    requires IsRun(sels) && sel.drew == DrawsCounter(sel.req) && sel.dep == Picked(Draws(sels), sel.req)
    ensures IsRun(sels + [sel])
  {
    forall i: nat | i < |sels| + 1 ensures SelectedAt(sels + [sel], i) {
      assert (sels + [sel])[..i] == sels[..i];
      if i < |sels| {
        assert SelectedAt(sels, i);
      } else {
        assert sels[..i] == sels;
      }
    }
  }

  /** Where the round-robin branch is reached the deployment drawn is the one whose turn it is. */
  lemma PickedIsDrawn(draws: seq<string>, req: Request)
    requires DrawsCounter(req)
    ensures Picked(draws, req) == Some(Admitted(req)[Rem(Counter(draws, req.model.name), |Admitted(req)|)])
  {
    var env := req.env.(counter := Counter(draws, req.model.name));
    GateRespected(req.model, req.exclude, env);
    DivMod(env.counter, |Admitted(req)|);
    assert Admitted(req)[0] in Eligibles(req.model, req.exclude);
  }

  lemma DrawsAppend(sels: seq<Selection>, sel: Selection)
    ensures Draws(sels + [sel]) == Draws(sels) + (if sel.drew then [sel.req.model.name] else [])
  {
    assert Front(sels + [sel]) == sels;
  }

  class RoundRobinCounters {
    var counters: map<string, nat>
    /** The selections so far, and the models that drew a number, in order. */
    ghost var selections: seq<Selection>
    ghost var calls: seq<string>

    ghost predicate Valid()
      reads this
    {
      forall m :: GetOr(counters, m, 0) == Counter(calls, m)
    }

    constructor ()
      ensures Valid() && calls == [] && selections == []
    {
      counters, calls, selections := map[], [], [];
    }

    /** `_next_round_robin`. */
    method Next(model: string) returns (n: nat)
      requires Valid()
      modifies this`counters, this`calls
      ensures Valid() && calls == old(calls) + [model] && n == Counter(old(calls), model)
    {
      n := GetOr(counters, model, 0);
      counters := counters[model := n + 1];
      calls := calls + [model];
      assert Front(calls) == old(calls);
    }

    /** `select_deployment` with the shared counters: a number is drawn only where the round-robin branch
        is reached. */
    method Select(req: Request) returns (dep: Option<Deployment>)
      requires Valid() && calls == Draws(selections) && IsRun(selections)
      modifies this
      ensures Valid() && calls == Draws(selections) && IsRun(selections)
      ensures selections == old(selections) + [Selection(req, DrawsCounter(req), dep)]
    {
      var admitted := Admitted(req);
      ghost var draws := calls;
      if admitted != [] && req.model.strategy.RoundRobin? {
        PickedIsDrawn(draws, req);
        var n := Next(req.model.name);
        DivMod(n, |admitted|);
        dep := Some(admitted[n % |admitted|]);
      } else {
        dep := SelectDeployment(req.model, req.exclude, req.env);
      }
      ghost var sel := Selection(req, DrawsCounter(req), dep);
      RunGrows(selections, sel);
      DrawsAppend(selections, sel);
      selections := selections + [sel];
    }
  }

  /** How often a deployment was selected for a model, from selection `start` on. */
  function Turns(sels: seq<Selection>, start: nat, name: string, d: Deployment): nat
    requires start <= |sels|
    decreases |sels|
  {
    if |sels| == start then 0
    else
      Turns(Front(sels), start, name, d)
      + (if Last(sels).req.model.name == name && Last(sels).dep == Some(d) then 1 else 0)
  }

  /** How many selections were made for a model from selection `start` on. */
  function RequestsFor(sels: seq<Selection>, start: nat, name: string): nat
    requires start <= |sels|
    decreases |sels|
  {
    if |sels| == start then 0
    else RequestsFor(Front(sels), start, name) + (if Last(sels).req.model.name == name then 1 else 0)
  }

  /** From selection `start` on the model uses round robin among the same deployments. */
  ghost predicate Stable(sels: seq<Selection>, start: nat, name: string, deps: seq<Deployment>)
    requires start <= |sels|
  {
    NoDup(deps) && deps != [] && forall i: nat :: start <= i < |sels| ==> StableAt(sels, i, name, deps)
  }

  ghost predicate StableAt(sels: seq<Selection>, i: nat, name: string, deps: seq<Deployment>)
    requires i < |sels|
  {
    var req := sels[i].req;
    req.model.name == name ==> req.model.strategy.RoundRobin? && Admitted(req) == deps
  }

  /** How many of the numbers `lo .. hi` leave remainder `j` modulo `n`. */
  function Residues(lo: nat, hi: nat, n: nat, j: nat): nat
    requires lo <= hi && n > 0
    decreases hi
  {
    if lo == hi then 0 else Residues(lo, hi - 1, n, j) + (if Rem(hi - 1, n) == j then 1 else 0)
  }

  lemma RunPrefix(sels: seq<Selection>, start: nat, name: string, deps: seq<Deployment>)
    requires start < |sels| && IsRun(sels) && Stable(sels, start, name, deps)
    ensures IsRun(Front(sels)) && Stable(Front(sels), start, name, deps) && Front(sels)[..start] == sels[..start]
  {
    forall i: nat | i < |sels| - 1 ensures SelectedAt(Front(sels), i) {
      assert SelectedAt(sels, i) && Front(sels)[..i] == sels[..i];
    }
    forall i: nat | start <= i < |sels| - 1 ensures StableAt(Front(sels), i, name, deps) {
      assert StableAt(sels, i, name, deps);
    }
  }

  /** A selection for the model draws a number, and gets deployment `j` exactly if it leaves remainder `j`. */
  lemma LastTurn(sels: seq<Selection>, start: nat, name: string, deps: seq<Deployment>, j: nat)
    requires start < |sels| && IsRun(sels) && Stable(sels, start, name, deps) && j < |deps|
    requires Last(sels).req.model.name == name
    ensures Last(sels).drew
    ensures Last(sels).dep == Some(deps[j]) <==> Rem(Counter(Draws(Front(sels)), name), |deps|) == j
  {
    var n := |sels| - 1;
    assert SelectedAt(sels, n) && StableAt(sels, n, name, deps) && sels[..n] == Front(sels);
    PickedIsDrawn(Draws(Front(sels)), sels[n].req);
    var i := Rem(Counter(Draws(Front(sels)), name), |deps|);
    assert i < j || j < i || i == j;
  }

  lemma DrawsSnoc(sels: seq<Selection>, name: string)
    requires sels != []
    ensures Counter(Draws(sels), name)
         == Counter(Draws(Front(sels)), name) + (if Last(sels).drew && Last(sels).req.model.name == name then 1 else 0)
  {
    var before := Draws(Front(sels));
    assert before + [] == before && Front(before + [Last(sels).req.model.name]) == before;
  }

  /** Each selection for the model draws one number, and the turns of a deployment are its remainders. */
  lemma {:induction false} TurnsAreResidues(sels: seq<Selection>, start: nat, name: string, deps: seq<Deployment>,
                                            j: nat)
    requires start <= |sels| && IsRun(sels) && Stable(sels, start, name, deps) && j < |deps|
    ensures Counter(Draws(sels), name) == Counter(Draws(sels[..start]), name) + RequestsFor(sels, start, name)
    ensures Turns(sels, start, name, deps[j])
         == Residues(Counter(Draws(sels[..start]), name), Counter(Draws(sels), name), |deps|, j)
    decreases |sels|
  {
    if |sels| == start {
      assert sels[..start] == sels;
    } else {
      RunPrefix(sels, start, name, deps);
      TurnsAreResidues(Front(sels), start, name, deps, j);
      DrawsSnoc(sels, name);
      if Last(sels).req.model.name == name {
        LastTurn(sels, start, name, deps, j);
      }
    }
  }

  /** A window of `n` consecutive numbers contains every remainder exactly once. */
  lemma {:induction false} FullRound(lo: nat, n: nat, j: nat)
    requires n > 0 && j < n
    ensures Residues(lo, lo + n, n, j) == 1
  {
    if lo == 0 {
      FirstRound(n, n, j);
    } else {
      FullRound(lo - 1, n, j);
      DropFirst(lo - 1, lo - 1 + n, n, j);
    }
  }

  lemma {:induction false} FirstRound(hi: nat, n: nat, j: nat)
    requires n > 0 && j < n && hi <= n
    ensures Residues(0, hi, n, j) == if j < hi then 1 else 0
  {
    if hi > 0 {
      FirstRound(hi - 1, n, j);
    }
  }

  lemma {:induction false} DropFirst(lo: nat, hi: nat, n: nat, j: nat)
    requires lo < hi && n > 0
    ensures Residues(lo, hi, n, j) == Residues(lo + 1, hi, n, j) + (if Rem(lo, n) == j then 1 else 0)
    decreases hi
  {
    if lo + 1 < hi { DropFirst(lo, hi - 1, n, j); }
  }

  /** In `k` consecutive numbers every remainder occurs `k / n` times, or once more. */
  lemma {:induction false} ResiduesBalanced(lo: nat, k: nat, n: nat, j: nat)
    requires n > 0 && j < n
    ensures Fair(Residues(lo, lo + k, n, j), k, n)
  {
    if k < n {
      ShortRound(lo, k, n, j);
    } else {
      var rest := k - n;
      ResiduesBalanced(lo, rest, n, j);
      FullRound(lo + rest, n, j);
      JoinResidues(lo, lo + rest, lo + k, n, j);
    }
  }

  lemma {:induction false} JoinResidues(lo: nat, mid: nat, hi: nat, n: nat, j: nat)
    requires lo <= mid <= hi && n > 0
    ensures Residues(lo, hi, n, j) == Residues(lo, mid, n, j) + Residues(mid, hi, n, j)
    decreases hi
  {
    if mid < hi { JoinResidues(lo, mid, hi - 1, n, j); }
  }

  lemma ShortRound(lo: nat, k: nat, n: nat, j: nat)
    requires j < n && k < n
    ensures Residues(lo, lo + k, n, j) <= 1
    ensures k == 0 ==> Residues(lo, lo + k, n, j) == 0
  {
    FullRound(lo, n, j);
    JoinResidues(lo, lo + k, lo + n, n, j);
  }

  /** A share of `k` turns among `n`: their quotient, rounded down or up. */
  predicate Fair(turns: nat, k: nat, n: nat)
    requires n > 0
  {
    turns == Quot(k, n) || (Rem(k, n) != 0 && turns == Quot(k, n) + 1)
  }

  /** Round-robin fairness: while a model's admitted list keeps its `n` different deployments, any run of
      selections with `k` for that model gives each of them `k / n` turns, rounded down or up, however
      selections for other models are interleaved and whatever went before. */
  lemma RoundRobinFair(sels: seq<Selection>, start: nat, name: string, deps: seq<Deployment>, d: Deployment)
    requires start <= |sels| && IsRun(sels) && Stable(sels, start, name, deps) && d in deps
    ensures Fair(Turns(sels, start, name, d), RequestsFor(sels, start, name), |deps|)
  {
    var j: nat :| j < |deps| && deps[j] == d;
    FairAt(sels, start, name, deps, j);
  }

  lemma FairAt(sels: seq<Selection>, start: nat, name: string, deps: seq<Deployment>, j: nat)
    requires start <= |sels| && IsRun(sels) && Stable(sels, start, name, deps) && j < |deps|
    ensures Fair(Turns(sels, start, name, deps[j]), RequestsFor(sels, start, name), |deps|)
  {
    TurnsAreResidues(sels, start, name, deps, j);
    ResiduesBalanced(Counter(Draws(sels[..start]), name), RequestsFor(sels, start, name), |deps|, j);
  }
}
