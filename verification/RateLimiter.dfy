/** The rate limiter: per-window counters kept in memory, pruned when they grow, and flushed to the
    database in the background. */
module RateLimiter {
  import opened Prelude

  const PRUNE_ABOVE := 8000
  const SECONDS_PER_MINUTE := 60
  const SECONDS_PER_DAY := 86400

  datatype Scope = KeyScope | TeamScope | OrgScope

  datatype Window = Minute | Day

  /** A counter's key. Window starts are seconds; the source compares them as ISO strings, which order
      like the times they spell. */
  datatype Key = Key(scope: Scope, id: string, window: Window, start: int)

  function WindowStart(w: Window, now: int): int {
    match w
    case Minute => now / SECONDS_PER_MINUTE * SECONDS_PER_MINUTE
    case Day => now / SECONDS_PER_DAY * SECONDS_PER_DAY
  }

  function Seconds(w: Window): int { if w.Minute? then 60 else 86400 }

  /** A window starts on a full minute or day, at most that long ago, and there is only one such start. */
  lemma WindowContains(w: Window, now: int, start: int)
    ensures WindowStart(w, now) == start <==> start % Seconds(w) == 0 && start <= now < start + Seconds(w)
  {
    var n := Seconds(w);
    assert now / n * n % n == 0 && now / n * n <= now < now / n * n + n;
  }

  /** One increment: the counter, and the minute the clock shows once the lock is held. */
  datatype Inc = Inc(key: Key, minute: int)

  predicate Survives(k: Key, minute: int) { k.window != Minute || k.start >= minute }

  /** A counter that is not there counts zero. */
  function At(m: map<Key, nat>, k: Key): int { if k in m then m[k] else 0 }

  function Bump(m: map<Key, nat>, k: Key): map<Key, nat> { m[k := At(m, k) + 1] }

  /** The in-memory counters after one increment, pruned if there are too many. */
  function AfterInc(local: map<Key, nat>, inc: Inc): map<Key, nat> {
    var bumped := Bump(local, inc.key);
    if |bumped| > PRUNE_ABOVE then Pruned(bumped, inc.minute) else bumped
  }

  function Pruned(m: map<Key, nat>, minute: int): map<Key, nat> {
    map k | k in m && Survives(k, minute) :: m[k]
  }

  function Local(run: seq<Inc>): map<Key, nat> {
    if run == [] then map[] else AfterInc(Local(Front(run)), Last(run))
  }

  /** What `_increment` returns for the last increment of a run. */
  function Answer(run: seq<Inc>): nat
    requires run != []
  {
    At(Local(Front(run)), Last(run).key) + 1
  }

  /** How often a counter was really incremented. */
  function Count(run: seq<Inc>, k: Key): nat {
    if run == [] then 0 else Count(Front(run), k) + (if Last(run).key == k then 1 else 0)
  }

  lemma LocalStep(run: seq<Inc>, inc: Inc)
    ensures Local(run + [inc]) == AfterInc(Local(run), inc)
    ensures Answer(run + [inc]) == At(Local(run), inc.key) + 1
    ensures forall k :: Count(run + [inc], k) == Count(run, k) + (if inc.key == k then 1 else 0)
  {
    assert Front(run + [inc]) == run;
  }

  // ----- counting is exact --------------------------------------------------------------------------

  /** The clock does not run backwards: no increment sees an earlier minute than one before it, neither
      when its window is computed nor when it looks for counters to prune. */
  ghost predicate Clocked(run: seq<Inc>) {
    forall i, j :: 0 <= i < j < |run| ==> Before(run[i], run[j])
  }

  predicate Before(a: Inc, b: Inc) {
    a.minute <= b.minute && (b.key.window == Minute ==> a.minute <= b.key.start)
  }

  /** Some increment of the run found too many counters and dropped this one. */
  ghost predicate Forgotten(run: seq<Inc>, k: Key) {
    run != [] && (Forgotten(Front(run), k) || Drops(run, k))
  }

  ghost predicate Drops(run: seq<Inc>, k: Key)
    requires run != []
  {
    && |Bump(Local(Front(run)), Last(run).key)| > PRUNE_ABOVE
    && !Survives(k, Last(run).minute)
    && Count(run, k) > 0
  }

  /** A counter holds the true count as long as it was not dropped, and less once it was. */
  lemma {:induction false} CounterExactIff(run: seq<Inc>, k: Key)
    ensures At(Local(run), k) <= Count(run, k)
    ensures At(Local(run), k) == Count(run, k) <==> !Forgotten(run, k)
  {
    if run != [] { CounterExactIff(Front(run), k); }
  }

  /** A minute counter is only dropped after its minute is over. */
  lemma {:induction false} DroppedIsOver(run: seq<Inc>, k: Key)
    requires Clocked(run) && Forgotten(run, k)
    ensures k.window == Minute && k.start < Last(run).minute
  {
    if Forgotten(Front(run), k) {
      DroppedIsOver(Front(run), k);
      assert Before(run[|run| - 2], Last(run));
    }
  }

  /** With a clock that does not run backwards every increment is answered with its true ordinal, however
      often counters were pruned before: 1 for the first in its window, then 2, 3, and so on. */
  lemma AnswerIsOrdinal(run: seq<Inc>)
    requires run != [] && Clocked(run)
    ensures Answer(run) == Count(run, Last(run).key)
  {
    var before, k := Front(run), Last(run).key;
    CounterExactIff(before, k);
    assert before != [] ==> Before(Last(before), Last(run));
    if Forgotten(before, k) {
      DroppedIsOver(before, k);
    }
  }

  /** Without any assumption on the clock: an answer is the true ordinal exactly if the counter was not
      dropped before. Nothing suspends between the computation of a window and its use, so only a clock
      that steps back asks for a dropped counter again. */
  lemma AnswerExactIff(run: seq<Inc>)
    requires run != []
    ensures Answer(run) == Count(run, Last(run).key) <==> !Forgotten(Front(run), Last(run).key)
  {
    CounterExactIff(Front(run), Last(run).key);
  }

  /** The increments of a counter that were answered within a limit. */
  function Admitted(run: seq<Inc>, k: Key, limit: nat): nat {
    if run == [] then 0
    else Admitted(Front(run), k, limit) + (if Last(run).key == k && Answer(run) <= limit then 1 else 0)
  }

  /** At most `limit` requests pass a scope per window, and none is turned away before that. */
  lemma {:induction false} LimitHolds(run: seq<Inc>, k: Key, limit: nat)
    requires Clocked(run)
    ensures Admitted(run, k, limit) == if Count(run, k) <= limit then Count(run, k) else limit
  {
    if run != [] {
      LimitHolds(Front(run), k, limit);
      if Last(run).key == k { AnswerIsOrdinal(run); }
    }
  }

  // ----- when the clock steps back ------------------------------------------------------------------

  const FIRST: Inc := Inc(Key(KeyScope, "x", Minute, 0), 0)

  /** One request in minute 0 and one each in `n` other scopes a minute later. */
  function Flooded(n: nat): seq<Inc> {
    if n == 0 then [FIRST] else Flooded(n - 1) + [Inc(Key(TeamScope, seq(n - 1, _ => 'y'), Minute, 60), 60)]
  }

  predicate FloodedKey(k: Key, n: nat) {
    k == FIRST.key || (k.scope == TeamScope && |k.id| < n)
  }

  ghost predicate AllFlooded(m: map<Key, nat>, n: nat) {
    forall k :: k in m ==> FloodedKey(k, n)
  }

  /** A new counter in a store that is not full. */
  lemma BumpGrows(m: map<Key, nat>, inc: Inc)
    requires inc.key !in m && |m| < PRUNE_ABOVE
    ensures AfterInc(m, inc) == Bump(m, inc.key) && |AfterInc(m, inc)| == |m| + 1
    ensures AfterInc(m, inc).Keys == m.Keys + {inc.key}
  {
    assert Bump(m, inc.key).Keys == m.Keys + {inc.key};
  }

  lemma {:induction false} FloodedCounters(n: nat)
    requires n < PRUNE_ABOVE
    ensures |Local(Flooded(n))| == n + 1 && AllFlooded(Local(Flooded(n)), n)
  {
    if n == 0 {
      assert Flooded(0) == [] + [FIRST];
      LocalStep([], FIRST);
      BumpGrows(map[], FIRST);
    } else {
      FloodedCounters(n - 1);
      var before, inc := Local(Flooded(n - 1)), Last(Flooded(n));
      LocalStep(Flooded(n - 1), inc);
      assert inc.key.scope == TeamScope && |inc.key.id| == n - 1;
      assert !FloodedKey(inc.key, n - 1);
      BumpGrows(before, inc);
      forall k | k in Local(Flooded(n)) ensures FloodedKey(k, n) {
        assert k == inc.key || FloodedKey(k, n - 1);
      }
    }
  }

  lemma {:induction false} FloodedCount(n: nat)
    ensures Count(Flooded(n), FIRST.key) == 1
  {
    if n == 0 {
      assert Flooded(0) == [] + [FIRST];
      LocalStep([], FIRST);
    } else {
      FloodedCount(n - 1);
      LocalStep(Flooded(n - 1), Last(Flooded(n)));
    }
  }

  lemma BumpFills(m: map<Key, nat>, k: Key)
    requires k !in m && |m| == PRUNE_ABOVE
    ensures |Bump(m, k)| > PRUNE_ABOVE
  {
    assert Bump(m, k).Keys == m.Keys + {k};
  }

  /** A run with a wrong answer: once the counters of a minute were pruned, the clock steps back into that
      minute, and its second request is counted as its first. */
  lemma StepBackRecounts()
    ensures var run := Flooded(8000) + [FIRST];
            Answer(run) == 1 && Count(run, FIRST.key) == 2
  {
    var flooded := Flooded(PRUNE_ABOVE);
    var before, last := Flooded(PRUNE_ABOVE - 1), Last(flooded);
    assert flooded == before + [last] && Front(flooded) == before;
    FloodedCounters(PRUNE_ABOVE - 1);
    FloodedCount(PRUNE_ABOVE);
    assert last.key.scope == TeamScope && |last.key.id| == PRUNE_ABOVE - 1;
    assert !FloodedKey(last.key, PRUNE_ABOVE - 1);
    BumpFills(Local(before), last.key);
    assert Drops(flooded, FIRST.key);
    CounterExactIff(flooded, FIRST.key);
    LocalStep(flooded, FIRST);
  }

  // ----- the limiter ----------------------------------------------------------------------------------

  /** One configured limit of the caller, in the order they are checked. */
  datatype Check = Check(scope: Scope, id: string, window: Window, limit: nat)

  /** A caller's scopes; an empty id or a limit that is not positive means nothing to check. */
  datatype Limits = Limits(id: string, perMinute: int, perDay: int)

  datatype KeyInfo = KeyInfo(key: Limits, team: Limits, org: Limits)

  function ScopeChecks(scope: Scope, l: Limits): seq<Check> {
    if l.id == "" then []
    else
      (if l.perMinute > 0 then [Check(scope, l.id, Minute, l.perMinute)] else [])
      + (if l.perDay > 0 then [Check(scope, l.id, Day, l.perDay)] else [])
  }

  function Checks(k: KeyInfo): seq<Check> {
    ScopeChecks(KeyScope, k.key) + ScopeChecks(TeamScope, k.team) + ScopeChecks(OrgScope, k.org)
  }

  function LimitsOf(k: KeyInfo, s: Scope): Limits {
    match s
    case KeyScope => k.key
    case TeamScope => k.team
    case OrgScope => k.org
  }

  /** A caller's limit in one scope and window. */
  function LimitOf(k: KeyInfo, s: Scope, w: Window): int {
    if w.Minute? then LimitsOf(k, s).perMinute else LimitsOf(k, s).perDay
  }

  /** Key before team before org, and in each the minute before the day. */
  function Rank(c: Check): nat {
    (match c.scope case KeyScope => 0 case TeamScope => 2 case OrgScope => 4) + (if c.window.Minute? then 0 else 1)
  }

  /** Ranks rise from `lo` to below `hi`. */
  ghost predicate Ranked(checks: seq<Check>, lo: nat, hi: nat) {
    && (forall i :: 0 <= i < |checks| ==> lo <= Rank(checks[i]) < hi)
    && (forall i, j :: 0 <= i < j < |checks| ==> Rank(checks[i]) < Rank(checks[j]))
  }

  lemma RankedConcat(a: seq<Check>, b: seq<Check>, lo: nat, mid: nat, hi: nat)
    requires lo <= mid <= hi && Ranked(a, lo, mid) && Ranked(b, mid, hi)
    ensures Ranked(a + b, lo, hi)
  {
  }

  /** A limit of the caller, as a check. */
  predicate IsLimit(k: KeyInfo, c: Check) {
    c.id == LimitsOf(k, c.scope).id != "" && c.limit == LimitOf(k, c.scope, c.window) > 0
  }

  /** The checks of a caller are its positive limits in the scopes it belongs to, each once, in rank order. */
  lemma ChecksAre(k: KeyInfo)
    ensures forall c :: c in Checks(k) <==> IsLimit(k, c)
    ensures Ranked(Checks(k), 0, 6)
  {
    forall c ensures c in Checks(k) <==> IsLimit(k, c) { ChecksHave(k, c); }
    ScopeRanked(KeyScope, k.key);
    ScopeRanked(TeamScope, k.team);
    ScopeRanked(OrgScope, k.org);
    RankedConcat(ScopeChecks(KeyScope, k.key), ScopeChecks(TeamScope, k.team), 0, 2, 4);
    RankedConcat(ScopeChecks(KeyScope, k.key) + ScopeChecks(TeamScope, k.team), ScopeChecks(OrgScope, k.org), 0, 4, 6);
  }

  lemma ChecksHave(k: KeyInfo, c: Check)
    ensures c in Checks(k) <==> IsLimit(k, c)
  {
    ScopeChecksAre(k, KeyScope, c);
    ScopeChecksAre(k, TeamScope, c);
    ScopeChecksAre(k, OrgScope, c);
  }

  lemma ScopeRanked(scope: Scope, l: Limits)
    ensures var lo: nat := match scope case KeyScope => 0 case TeamScope => 2 case OrgScope => 4;
            Ranked(ScopeChecks(scope, l), lo, lo + 2)
  {
  }

  lemma ScopeChecksAre(k: KeyInfo, scope: Scope, c: Check)
    ensures c in ScopeChecks(scope, LimitsOf(k, scope)) <==> c.scope == scope && IsLimit(k, c)
  {
  }

  /** The clock readings around one check: when the window was computed, and under the lock. */
  datatype Reading = Reading(asked: int, held: int)

  function IncFor(c: Check, r: Reading): (inc: Inc)
    ensures TakenOnce(inc, r)
  {
    Inc(Key(c.scope, c.id, c.window, WindowStart(c.window, r.asked)), WindowStart(Minute, r.held))
  }

  function IncsFor(checks: seq<Check>, readings: nat -> Reading): seq<Inc> {
    if checks == [] then []
    else IncsFor(Front(checks), readings) + [IncFor(Last(checks), readings(|checks| - 1))]
  }

  /** The first `n` checks of a request were answered within their limits. */
  ghost predicate Within(before: seq<Inc>, checks: seq<Check>, readings: nat -> Reading, n: int)
    requires n <= |checks|
  {
    forall i :: 0 <= i < n ==> AnsweredWithin(before, checks, readings, i)
  }

  ghost predicate AnsweredWithin(before: seq<Inc>, checks: seq<Check>, readings: nat -> Reading, i: nat)
    requires i < |checks|
  {
    var run := before + IncsFor(checks[..i + 1], readings);
    run != [] && Answer(run) <= checks[i].limit
  }

  /** Conservation: every increment is in the table, waiting, being written or lost. */
  ghost predicate Conserved(counters: map<Key, nat>, pending: map<Key, nat>, unwritten: map<Key, nat>,
                            lost: map<Key, nat>, run: seq<Inc>) {
    forall k :: Accounted(counters, pending, unwritten, lost, run, k)
  }

  ghost predicate Accounted(counters: map<Key, nat>, pending: map<Key, nat>, unwritten: map<Key, nat>,
                            lost: map<Key, nat>, run: seq<Inc>, k: Key) {
    At(counters, k) + At(pending, k) + At(unwritten, k) + At(lost, k) == Count(run, k)
  }

  lemma ConservedInc(counters: map<Key, nat>, pending: map<Key, nat>, unwritten: map<Key, nat>, lost: map<Key, nat>,
                     run: seq<Inc>, inc: Inc)
    requires Conserved(counters, pending, unwritten, lost, run)
    ensures Conserved(counters, Bump(pending, inc.key), unwritten, lost, run + [inc])
  {
    LocalStep(run, inc);
    forall k ensures Accounted(counters, Bump(pending, inc.key), unwritten, lost, run + [inc], k) {
      assert Accounted(counters, pending, unwritten, lost, run, k);
    }
  }

  // ----- requests let through ---------------------------------------------------------------------

  /** One call of `check_proxy_request`: how many of its checks were made, and whether it let the request
      through. */
  datatype Request = Request(who: KeyInfo, readings: nat -> Reading, made: nat, ok: bool)

  /** What a call on counters with a given past amounts to: the checks are made in order, all but the last
      are within their limits, and the request is let through if the last one is as well. */
  ghost predicate Checked(before: seq<Inc>, r: Request) {
    var checks := Checks(r.who);
    && r.made <= |checks|
    && Within(before, checks, r.readings, if r.ok then r.made else Max(r.made - 1, 0))
    && if r.ok then r.made == |checks|
       else r.made > 0 && !AnsweredWithin(before, checks, r.readings, r.made - 1)
  }

  /** The checks a request got to. */
  function MadeChecks(r: Request): seq<Check> {
    if r.made <= |Checks(r.who)| then Checks(r.who)[..r.made] else Checks(r.who)
  }

  /** The increments of a run of requests. */
  function IncsOf(rs: seq<Request>): seq<Inc> {
    if rs == [] then [] else IncsOf(Front(rs)) + IncsFor(MadeChecks(Last(rs)), Last(rs).readings)
  }

  ghost predicate AllChecked(rs: seq<Request>) {
    rs == [] || (AllChecked(Front(rs)) && Checked(IncsOf(Front(rs)), Last(rs)))
  }

  /** The request is subject to a limit of at most `limit` on a counter. */
  ghost predicate Subject(r: Request, k: Key, limit: nat) {
    exists i: nat :: i < |Checks(r.who)| && SubjectAt(r, k, limit, i)
  }

  ghost predicate SubjectAt(r: Request, k: Key, limit: nat, i: nat)
    requires i < |Checks(r.who)|
  {
    IncFor(Checks(r.who)[i], r.readings(i)).key == k && Checks(r.who)[i].limit <= limit
  }

  /** How many requests subject to the limit were let through. */
  ghost function LetThrough(rs: seq<Request>, k: Key, limit: nat): nat {
    if rs == [] then 0
    else LetThrough(Front(rs), k, limit) + (if Last(rs).ok && Subject(Last(rs), k, limit) then 1 else 0)
  }

  lemma AdmittedSnoc(run: seq<Inc>, inc: Inc, k: Key, limit: nat)
    ensures Admitted(run + [inc], k, limit)
         == Admitted(run, k, limit) + (if inc.key == k && Answer(run + [inc]) <= limit then 1 else 0)
  {
    assert Front(run + [inc]) == run;
  }

  lemma {:induction false} AdmittedOnlyGrows(before: seq<Inc>, more: seq<Inc>, k: Key, limit: nat)
    ensures Admitted(before + more, k, limit) >= Admitted(before, k, limit)
  {
    if more == [] {
      assert before + more == before;
    } else {
      AdmittedOnlyGrows(before, Front(more), k, limit);
      AdmittedSnoc(before + Front(more), Last(more), k, limit);
      assert (before + Front(more)) + [Last(more)] == before + more;
    }
  }

  lemma {:induction false} IncsPrefix(checks: seq<Check>, readings: nat -> Reading, i: nat, n: nat)
    requires i <= n <= |checks|
    ensures IncsFor(checks[..i], readings) <= IncsFor(checks[..n], readings)
  {
    if i < n {
      IncsPrefix(checks, readings, i, n - 1);
      assert Front(checks[..n]) == checks[..n - 1];
    }
  }

  lemma AdmittedOnce(before: seq<Inc>, early: seq<Inc>, inc: Inc, rest: seq<Inc>, k: Key, limit: nat)
    requires inc.key == k && Answer(before + early + [inc]) <= limit
    ensures Admitted(before + early + [inc] + rest, k, limit) >= Admitted(before, k, limit) + 1
  {
    AdmittedOnlyGrows(before, early, k, limit);
    AdmittedSnoc(before + early, inc, k, limit);
    AdmittedOnlyGrows(before + early + [inc], rest, k, limit);
  }

  /** The increments of the first `n` checks, around the one of check `i`. */
  lemma IncsAround(before: seq<Inc>, checks: seq<Check>, readings: nat -> Reading, i: nat, n: nat)
    returns (rest: seq<Inc>)
    requires i < n <= |checks|
    ensures before + IncsFor(checks[..n], readings)
         == before + IncsFor(checks[..i], readings) + [IncFor(checks[i], readings(i))] + rest
  {
    IncsPrefix(checks, readings, i + 1, n);
    IncsStep(checks, readings, i, before);
    var upto, all := IncsFor(checks[..i + 1], readings), IncsFor(checks[..n], readings);
    rest := all[|upto|..];
    assert before + all == (before + upto) + rest;
  }

  /** The increments of one request raise the number admitted if one of them, on the counter, was answered
      within the limit. */
  lemma AdmittedByRequest(before: seq<Inc>, checks: seq<Check>, readings: nat -> Reading, k: Key, limit: nat, n: nat,
                          i: nat)
    requires i < n <= |checks| && AnsweredWithin(before, checks, readings, i)
    requires IncFor(checks[i], readings(i)).key == k && checks[i].limit <= limit
    ensures Admitted(before + IncsFor(checks[..n], readings), k, limit) >= Admitted(before, k, limit) + 1
  {
    var rest := IncsAround(before, checks, readings, i, n);
    IncsStep(checks, readings, i, before);
    AdmittedOnce(before, IncsFor(checks[..i], readings), IncFor(checks[i], readings(i)), rest, k, limit);
  }

  lemma {:induction false} LetThroughIsAdmitted(rs: seq<Request>, k: Key, limit: nat)
    requires AllChecked(rs)
    ensures LetThrough(rs, k, limit) <= Admitted(IncsOf(rs), k, limit)
  {
    if rs != [] {
      var before, r := IncsOf(Front(rs)), Last(rs);
      LetThroughIsAdmitted(Front(rs), k, limit);
      AdmittedOnlyGrows(before, IncsFor(MadeChecks(r), r.readings), k, limit);
      if r.ok && Subject(r, k, limit) {
        var i: nat :| i < |Checks(r.who)| && SubjectAt(r, k, limit, i);
        assert AnsweredWithin(before, Checks(r.who), r.readings, i);
        AdmittedByRequest(before, Checks(r.who), r.readings, k, limit, r.made, i);
      }
    }
  }

  /** Over any run of requests with a clock that does not run backwards, at most `limit` of those subject to
      the limit are let through per scope and window, however often counters are pruned. */
  lemma RequestsWithinLimit(rs: seq<Request>, k: Key, limit: nat)
    requires AllChecked(rs) && Clocked(IncsOf(rs))
    ensures LetThrough(rs, k, limit) <= limit
  {
    LetThroughIsAdmitted(rs, k, limit);
    LimitHolds(IncsOf(rs), k, limit);
  }

  /** A request is only turned away over a limit of its own that is used up: counting itself, more than
      `limit` increments were made in that scope and window. */
  lemma TurnedAwayOver(rs: seq<Request>)
    requires rs != [] && AllChecked(rs) && Clocked(IncsOf(rs)) && !Last(rs).ok
    ensures var r, n := Last(rs), Last(rs).made - 1;
            && 0 <= n < |Checks(r.who)|
            && Count(IncsOf(rs), IncFor(Checks(r.who)[n], r.readings(n)).key) > Checks(r.who)[n].limit
  {
    LastCheckFailed(IncsOf(Front(rs)), Last(rs));
    AnswerIsOrdinal(IncsOf(rs));
  }

  lemma LastCheckFailed(before: seq<Inc>, r: Request)
    requires Checked(before, r) && !r.ok
    ensures 0 < r.made <= |Checks(r.who)|
    ensures var run, c := before + IncsFor(MadeChecks(r), r.readings), Checks(r.who)[r.made - 1];
            run != [] && Answer(run) > c.limit && Last(run).key == IncFor(c, r.readings(r.made - 1)).key
  {
    LastInc(before, Checks(r.who), r.readings, r.made - 1);
  }

  lemma LastInc(before: seq<Inc>, checks: seq<Check>, readings: nat -> Reading, i: nat)
    requires i < |checks|
    ensures var run := before + IncsFor(checks[..i + 1], readings);
            run != [] && Last(run) == IncFor(checks[i], readings(i))
  {
    assert Front(checks[..i + 1]) == checks[..i] && Last(checks[..i + 1]) == checks[i];
  }

  /** The request was let through, has such a limit of its own, and was checked within the window. */
  ghost predicate PassedUnder(r: Request, k: Key, limit: nat) {
    && r.ok
    && LimitsOf(r.who, k.scope).id == k.id != ""
    && 0 < LimitOf(r.who, k.scope, k.window) <= limit
    && forall i: nat :: k.start <= r.readings(i).asked < k.start + Seconds(k.window)
  }

  ghost function PassedIn(rs: seq<Request>, k: Key, limit: nat): nat {
    if rs == [] then 0 else PassedIn(Front(rs), k, limit) + (if PassedUnder(Last(rs), k, limit) then 1 else 0)
  }

  lemma PassedIsSubject(r: Request, k: Key, limit: nat)
    requires PassedUnder(r, k, limit) && k.start % Seconds(k.window) == 0
    ensures Subject(r, k, limit)
  {
    var c := Check(k.scope, k.id, k.window, LimitOf(r.who, k.scope, k.window));
    ChecksAre(r.who);
    assert c in Checks(r.who);
    var i: nat :| i < |Checks(r.who)| && Checks(r.who)[i] == c;
    WindowContains(k.window, r.readings(i).asked, k.start);
    assert SubjectAt(r, k, limit, i);
  }

  lemma {:induction false} PassedIsLetThrough(rs: seq<Request>, k: Key, limit: nat)
    requires k.start % Seconds(k.window) == 0
    ensures PassedIn(rs, k, limit) <= LetThrough(rs, k, limit)
  {
    if rs != [] {
      PassedIsLetThrough(Front(rs), k, limit);
      if PassedUnder(Last(rs), k, limit) { PassedIsSubject(Last(rs), k, limit); }
    }
  }

  /** The limit in the caller's terms: of the requests of one key, team or org with at most this limit per
      minute or day, no more are let through in one minute or day, with a clock that does not run backwards. */
  lemma ScopeLimitHolds(rs: seq<Request>, k: Key, limit: nat)
    requires AllChecked(rs) && Clocked(IncsOf(rs)) && k.start % Seconds(k.window) == 0
    ensures PassedIn(rs, k, limit) <= limit
  {
    PassedIsLetThrough(rs, k, limit);
    RequestsWithinLimit(rs, k, limit);
  }

  /** The increments of a run were made at these readings, one after the other. */
  ghost predicate TakenAt(run: seq<Inc>, readings: nat -> Reading) {
    forall i: nat :: i < |run| ==> TakenOnce(run[i], readings(i))
  }

  predicate TakenOnce(inc: Inc, r: Reading) {
    inc.key.start == WindowStart(inc.key.window, r.asked) && inc.minute == WindowStart(Minute, r.held)
  }

  predicate Earlier(a: Reading, b: Reading) { a.held <= b.asked <= b.held }

  lemma MinuteMonotone(a: int, b: int)
    requires a <= b
    ensures WindowStart(Minute, a) <= WindowStart(Minute, b)
  {
    assert a / SECONDS_PER_MINUTE <= b / SECONDS_PER_MINUTE;
  }

  lemma EarlierIsBefore(a: Inc, b: Inc, at: Reading, bt: Reading)
    requires TakenOnce(a, at) && TakenOnce(b, bt) && Earlier(at, bt)
    ensures Before(a, b)
  {
    MinuteMonotone(at.held, bt.asked);
    MinuteMonotone(bt.asked, bt.held);
  }

  /** Increments made at readings that do not decrease form a clocked run. */
  lemma ReadingsAreClocked(run: seq<Inc>, readings: nat -> Reading)
    requires TakenAt(run, readings)
    requires forall i: nat, j: nat :: i < j < |run| ==> Earlier(readings(i), readings(j))
    ensures Clocked(run)
  {
    forall i: nat, j: nat | i < j < |run| ensures Before(run[i], run[j]) {
      EarlierIsBefore(run[i], run[j], readings(i), readings(j));
    }
  }

  function Merged(a: map<Key, nat>, b: map<Key, nat>): (r: map<Key, nat>)
    ensures forall k :: At(r, k) == At(a, k) + At(b, k)
  {
    var keys := a.Keys + b.Keys;
    map k | k in keys :: At(a, k) + At(b, k)
  }

  lemma ConservedTake(counters: map<Key, nat>, pending: map<Key, nat>, unwritten: map<Key, nat>, lost: map<Key, nat>,
                      run: seq<Inc>)
    requires Conserved(counters, pending, unwritten, lost, run)
    ensures Conserved(counters, map[], Merged(unwritten, pending), lost, run)
  {
    forall k ensures Accounted(counters, map[], Merged(unwritten, pending), lost, run, k) {
      assert Accounted(counters, pending, unwritten, lost, run, k);
    }
  }

  /** Writing moves `n` from the unwritten count of a counter to the table, or loses it. */
  lemma ConservedWrite(counters: map<Key, nat>, pending: map<Key, nat>, unwritten: map<Key, nat>, lost: map<Key, nat>,
                       run: seq<Inc>, k: Key, n: nat, rest: nat)
    requires Conserved(counters, pending, unwritten, lost, run) && rest + n == At(unwritten, k)
    ensures Conserved(counters[k := At(counters, k) + n], pending, unwritten[k := rest], lost, run)
    ensures Conserved(counters, pending, unwritten[k := rest], lost[k := At(lost, k) + n], run)
  {
    var (written, waiting, missing) := (counters[k := At(counters, k) + n], unwritten[k := rest],
                                        lost[k := At(lost, k) + n]);
    forall j
      ensures Accounted(written, pending, waiting, lost, run, j)
      ensures Accounted(counters, pending, waiting, missing, run, j)
    {
      assert Accounted(counters, pending, unwritten, lost, run, j);
    }
  }

  class RateLimiter {
    var local: map<Key, nat>
    var pending: map<Key, nat>
    /** The counters table. */
    var counters: map<Key, nat>
    /** Every increment so far, what was taken for writing but not written yet, and what a failed
        write lost. */
    ghost var run: seq<Inc>
    ghost var unwritten: map<Key, nat>
    ghost var lost: map<Key, nat>

    ghost predicate Valid()
      reads this
    {
      local == Local(run) && Conserved(counters, pending, unwritten, lost, run)
    }

    constructor ()
      ensures Valid() && run == [] && lost == map[] && unwritten == map[]
    {
      local, pending, counters, run, unwritten, lost := map[], map[], map[], [], map[], map[];
    }

    method Increment(key: Key, minute: int) returns (count: nat)
      requires Valid()
      modifies this`local, this`pending, this`run
      ensures Valid() && run == old(run) + [Inc(key, minute)] && count == Answer(run)
    {
      LocalStep(run, Inc(key, minute));
      ConservedInc(counters, pending, unwritten, lost, run, Inc(key, minute));
      count := At(local, key) + 1;
      local := local[key := count];
      pending := pending[key := At(pending, key) + 1];
      if |local| > PRUNE_ABOVE {
        local := Pruned(local, minute);
      }
      run := run + [Inc(key, minute)];
    }

    /** `check_proxy_request`, up to its token and spend checks: count the request in every limited
        scope until one is over its limit. */
    method CheckProxyRequest(who: KeyInfo, readings: nat -> Reading) returns (ok: bool, made: nat)
      requires Valid()
      modifies this`local, this`pending, this`run
      ensures Valid() && Checked(old(run), Request(who, readings, made, ok))
      ensures run == old(run) + IncsFor(Checks(who)[..made], readings)
    {
      ok, made := CheckAll(Checks(who), readings);
    }

    method CheckAll(checks: seq<Check>, readings: nat -> Reading) returns (ok: bool, made: nat)
      requires Valid()
      modifies this`local, this`pending, this`run
      ensures Valid() && made <= |checks|
      ensures run == old(run) + IncsFor(checks[..made], readings)
      ensures ok ==> made == |checks|
      ensures Within(old(run), checks, readings, if ok then made else Max(made - 1, 0))
      ensures !ok ==> made > 0 && Answer(run) > checks[made - 1].limit
    {
      ghost var start := run;
      made := 0;
      assert start + [] == start;
      while made < |checks|
        invariant 0 <= made <= |checks| && Valid()
        invariant run == start + IncsFor(checks[..made], readings)
        invariant Within(start, checks, readings, made)
      {
        var inc := IncFor(checks[made], readings(made));
        IncsStep(checks, readings, made, start);
        var count := Increment(inc.key, inc.minute);
        if count > checks[made].limit {
          return false, made + 1;
        }
        WithinStep(start, checks, readings, made, run);
        made := made + 1;
      }
      assert checks[..|checks|] == checks;
      return true, made;
    }

    /** The first half of `_flush_now`: take what is pending, under the lock. */
    method TakePending() returns (batch: map<Key, nat>)
      requires Valid()
      modifies this`pending, this`unwritten
      ensures Valid() && batch == old(pending) && pending == map[]
      ensures forall k :: At(unwritten, k) == At(old(unwritten), k) + At(batch, k)
    {
      ConservedTake(counters, pending, unwritten, lost, run);
      batch := pending;
      unwritten := Merged(unwritten, batch);
      pending := map[];
    }

    /** The second half: write each counter; a write that fails is logged and forgotten. Increments and
        other flushes may come in between. */
    method WriteBatch(batch: map<Key, nat>, succeeds: Key -> bool)
      requires Valid() && forall k :: k in batch ==> batch[k] <= At(unwritten, k)
      modifies this`counters, this`unwritten, this`lost
      ensures Valid()
      ensures forall k :: At(unwritten, k) == At(old(unwritten), k) - At(batch, k)
      ensures forall k :: At(counters, k)
                       == At(old(counters), k) + (if succeeds(k) then At(batch, k) else 0)
      ensures (forall k :: k in batch ==> succeeds(k)) ==> forall k :: At(lost, k) == At(old(lost), k)
    {
      ghost var u0, c0, l0 := unwritten, counters, lost;
      var left := batch.Keys;
      while left != {}
        invariant left <= batch.Keys && Valid()
        invariant forall k :: Moved(k, batch, left, u0, c0, l0, succeeds)
        decreases left
      {
        var k :| k in left;
        assert Moved(k, batch, left, u0, c0, l0, succeeds);
        label before:
        WriteOne(k, batch[k], succeeds(k));
        ghost var was := left;
        left := left - {k};
        forall j ensures Moved(j, batch, left, u0, c0, l0, succeeds) {
          assert old@before(Moved(j, batch, was, u0, c0, l0, succeeds));
        }
      }
      forall k
        ensures At(unwritten, k) == At(old(unwritten), k) - At(batch, k)
        ensures At(counters, k) == At(old(counters), k) + (if succeeds(k) then At(batch, k) else 0)
        ensures k !in batch || succeeds(k) ==> At(lost, k) == At(old(lost), k)
      {
        assert Moved(k, batch, left, u0, c0, l0, succeeds);
      }
    }

    method WriteOne(k: Key, n: nat, succeeds: bool)
      requires Valid() && n <= At(unwritten, k)
      modifies this`counters, this`unwritten, this`lost
      ensures Valid()
      ensures forall j :: At(unwritten, j) == At(old(unwritten), j) - (if j == k then n else 0)
      ensures forall j :: At(counters, j) == At(old(counters), j) + (if j == k && succeeds then n else 0)
      ensures forall j :: At(lost, j) == At(old(lost), j) + (if j == k && !succeeds then n else 0)
    {
      ghost var rest: nat := At(unwritten, k) - n;
      ConservedWrite(counters, pending, unwritten, lost, run, k, n, rest);
      unwritten := unwritten[k := rest];
      if succeeds {
        counters := counters[k := At(counters, k) + n];
      } else {
        lost := lost[k := At(lost, k) + n];
      }
    }

    ghost predicate Moved(k: Key, batch: map<Key, nat>, left: set<Key>, unwritten0: map<Key, nat>,
                          counters0: map<Key, nat>, lost0: map<Key, nat>, succeeds: Key -> bool)
      reads this
    {
      var n := if k in batch && k !in left then batch[k] else 0;
      && At(unwritten, k) == At(unwritten0, k) - n
      && At(counters, k) == At(counters0, k) + (if succeeds(k) then n else 0)
      && At(lost, k) == At(lost0, k) + (if succeeds(k) then 0 else n)
    }
  }

  lemma WithinStep(before: seq<Inc>, checks: seq<Check>, readings: nat -> Reading, n: nat, run: seq<Inc>)
    requires n < |checks| && Within(before, checks, readings, n)
    requires run != [] && run == before + IncsFor(checks[..n + 1], readings) && Answer(run) <= checks[n].limit
    ensures Within(before, checks, readings, n + 1)
  {
    assert AnsweredWithin(before, checks, readings, n);
  }

  lemma IncsStep(checks: seq<Check>, readings: nat -> Reading, i: nat, before: seq<Inc>)
    requires i < |checks|
    ensures before + IncsFor(checks[..i + 1], readings)
         == (before + IncsFor(checks[..i], readings)) + [IncFor(checks[i], readings(i))]
  {
    assert Front(checks[..i + 1]) == checks[..i];
  }
}
