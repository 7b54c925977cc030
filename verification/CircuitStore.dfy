/** The registry of circuits: keys, the recency order, eviction, and the lock-protected methods
    that drive every circuit.

    A `Store` is the registry's abstract state: the recency order of an ordered dict, and for each
    key its identity and the history of operations applied to it since it was created. The class
    below keeps real circuit objects and a ghost copy of that log, and proves that every field of
    every object is the replay of its history. */
module CircuitStore {
  import opened Prelude
  import opened CircuitMachine

  const MIN_ENTRIES := 16

  // ----- keys -------------------------------------------------------------------------------

  const SEP: char := '\U{1F}'

  datatype Meta = Meta(model: string, deployment: string, baseUrl: string)

  function StripSlashes(url: string): string {
    if url != "" && Last(url) == '/' then StripSlashes(Front(url)) else url
  }

  function CircuitKey(model: string, deployment: string, baseUrl: string): string {
    model + [SEP] + deployment + [SEP] + StripSlashes(baseUrl)
  }

  /** The identity `_get` reads back out of a key when the caller names no model. */
  function KeyMeta(key: string): Meta {
    var parts := Split(key, SEP) + ["", "", ""];
    Meta(parts[0], parts[1], parts[2])
  }

  function MetaFor(key: string, model: string, deployment: string, baseUrl: string): Meta {
    if model == "" then KeyMeta(key) else Meta(model, deployment, baseUrl)
  }

  /** Stripping takes off trailing slashes, all of them and nothing else. */
  lemma {:induction false} StripsSlashes(url: string) returns (slashes: string)
    ensures url == StripSlashes(url) + slashes && forall c :: c in slashes ==> c == '/'
    ensures StripSlashes(url) != "" ==> Last(StripSlashes(url)) != '/'
  {
    slashes := "";
    if url != "" && Last(url) == '/' {
      var rest := StripsSlashes(Front(url));
      slashes := rest + "/";
      assert url == Front(url) + [Last(url)];
    }
  }

  lemma {:induction false} StripKeepsClean(url: string)
    requires SEP !in url
    ensures SEP !in StripSlashes(url)
  {
    if url != "" && Last(url) == '/' { StripKeepsClean(Front(url)); }
  }

  /** A circuit rebuilt from its key alone has the identity the key was made from, so a circuit
      that was evicted while requests were under way is found again by health reports. */
  lemma KeyRoundTrip(model: string, deployment: string, baseUrl: string)
    requires SEP !in model && SEP !in deployment && SEP !in baseUrl
    ensures KeyMeta(CircuitKey(model, deployment, baseUrl)) == Meta(model, deployment, StripSlashes(baseUrl))
    ensures MetaFor(CircuitKey(model, deployment, baseUrl), "", "", "") == Meta(model, deployment,
                                                                                StripSlashes(baseUrl))
  {
    var url := StripSlashes(baseUrl);
    StripKeepsClean(baseUrl);
    assert CircuitKey(model, deployment, baseUrl) == model + [SEP] + (deployment + [SEP] + url);
    SplitHead(model, deployment + [SEP] + url, SEP);
    SplitHead(deployment, url, SEP);
    SplitWhole(url, SEP);
  }

  // ----- the abstract registry ---------------------------------------------------------------

  datatype Entry = Entry(meta: Meta, breaker: Breaker, hist: History)

  datatype Store = Store(order: seq<string>, entries: map<string, Entry>)

  const EMPTY: Store := Store([], map[])

  ghost predicate StoreOk(st: Store) {
    && NoDup(st.order)
    && forall k :: k in st.order <==> k in st.entries
  }

  datatype Call =
    | CallAcquire(key: string, meta: Meta)
    | CallRelease(key: string, ticket: Ticket)
    | CallSuccess(key: string, ticket: Ticket)
    | CallFailure(key: string, ticket: Ticket, retryAfter: Option<real>)
    | CallHealth(model: string, baseUrl: string, healthy: bool)
    | CallReset

  /** One pass through the lock: the clock reading, the settings in force and the call. */
  datatype Event = Event(now: real, cfg: Settings, call: Call)

  function EntryLimit(s: Settings): nat { Max(s.maxEntries, MIN_ENTRIES) }

  function Without(order: seq<string>, key: string): (r: seq<string>)
    ensures key !in order ==> r == order
  {
    if order == [] then []
    else if order[0] == key then order[1..]
    else [order[0]] + Without(order[1..], key)
  }

  /** What is appended to an entry when an operation reaches its circuit. */
  function Extend(entry: Entry, e: Stamped): Entry {
    Entry(entry.meta, Apply(entry.breaker, e), entry.hist + [e])
  }

  function NewEntry(meta: Meta): Entry { Entry(meta, FRESH, []) }

  predicate Idle(c: Breaker) { c.phase == Closed && c.inflight == 0 }

  /** The least recently used idle circuit, or the least recently used one of all. */
  function Victim(st: Store): (k: string)
    requires StoreOk(st) && st.order != []
    ensures k in st.entries
    ensures (exists j :: j in st.entries && Idle(st.entries[j].breaker)) ==> Idle(st.entries[k].breaker)
  {
    var idle := FirstIdle(st, 0);
    if idle.Some? then idle.value else st.order[0]
  }

  function FirstIdle(st: Store, i: nat): (r: Option<string>)
    requires StoreOk(st) && i <= |st.order|
    decreases |st.order| - i
    ensures r.Some? ==> r.value in st.entries && Idle(st.entries[r.value].breaker)
    ensures r.None? ==> forall j :: i <= j < |st.order| ==> !Idle(st.entries[st.order[j]].breaker)
  {
    if i == |st.order| then None
    else if Idle(st.entries[st.order[i]].breaker) then Some(st.order[i])
    else FirstIdle(st, i + 1)
  }

  predicate IdleAt(st: Store, i: nat)
    requires StoreOk(st) && i < |st.order|
  {
    Idle(st.entries[st.order[i]].breaker)
  }

  /** The victim is at a position before which nothing is idle: it is the first idle circuit in recency
      order, or the first of all when none is idle. */
  ghost predicate VictimAt(st: Store, i: nat)
    requires StoreOk(st) && i < |st.order|
  {
    && Victim(st) == st.order[i]
    && (forall j: nat :: j < i ==> !IdleAt(st, j))
    && (i > 0 ==> IdleAt(st, i))
  }

  lemma VictimIsLeastRecent(st: Store)
    requires StoreOk(st) && st.order != []
    ensures exists i: nat :: i < |st.order| && VictimAt(st, i)
  {
    var i := FirstIdleAt(st, 0);
    assert i < |st.order| ==> VictimAt(st, i);
    assert i == |st.order| ==> VictimAt(st, 0);
  }

  lemma {:induction false} FirstIdleAt(st: Store, from: nat) returns (i: nat)
    requires StoreOk(st) && from <= |st.order|
    ensures from <= i <= |st.order| && (forall j: nat :: from <= j < i ==> !IdleAt(st, j))
    ensures if i == |st.order| then FirstIdle(st, from).None?
            else FirstIdle(st, from) == Some(st.order[i]) && IdleAt(st, i)
    decreases |st.order| - from
  {
    i := from;
    if from < |st.order| && !IdleAt(st, from) {
      i := FirstIdleAt(st, from + 1);
    }
  }

  function Remove(st: Store, key: string): Store {
    Store(Without(st.order, key), st.entries - {key})
  }

  lemma {:induction false} WithoutProps(order: seq<string>, key: string)
    requires NoDup(order)
    ensures NoDup(Without(order, key))
    ensures forall k :: k in Without(order, key) <==> k in order && k != key
    ensures |Without(order, key)| == if key in order then |order| - 1 else |order|
  {
    if order != [] {
      var rest := order[1..];
      assert order == [order[0]] + rest;
      assert forall i :: 0 <= i < |rest| ==> rest[i] == order[i + 1];
      assert order[0] !in rest;
      if order[0] != key { WithoutProps(rest, key); }
    }
  }

  lemma RemoveOk(st: Store, key: string)
    requires StoreOk(st)
    ensures StoreOk(Remove(st, key))
  {
    WithoutProps(st.order, key);
  }

  function Evicted(st: Store, limit: nat): (r: Store)
    requires StoreOk(st)
    ensures StoreOk(r)
    ensures |r.order| == if |st.order| <= limit then |st.order| else limit
    ensures forall k :: k in r.entries ==> k in st.entries && r.entries[k] == st.entries[k]
    decreases |st.order|
  {
    if |st.order| <= limit then st
    else
      WithoutProps(st.order, Victim(st));
      Evicted(Remove(st, Victim(st)), limit)
  }

  // ----- which circuits survive an eviction ---------------------------------------------------

  /** How many of the first `i` circuits in recency order are idle. */
  function IdleCount(st: Store, i: nat): (n: nat)
    requires StoreOk(st) && i <= |st.order|
    ensures n <= i
  {
    if i == 0 then 0 else IdleCount(st, i - 1) + (if IdleAt(st, i - 1) then 1 else 0)
  }

  /** The `i`-th circuit in recency order survives an eviction down to `limit`: an idle one if enough idle
      circuits come before it, a busy one if enough others are left to go once all idle ones have. */
  predicate Survives(st: Store, limit: nat, i: nat)
    requires StoreOk(st) && i < |st.order|
  {
    Spared(IdleAt(st, i), i, IdleCount(st, i), IdleCount(st, |st.order|), |st.order| - limit)
  }

  predicate Spared(idle: bool, before: nat, idleBefore: nat, allIdle: nat, over: int) {
    if idle then idleBefore >= over else before - idleBefore >= over - allIdle
  }

  lemma {:induction false} WithoutMiddle(left: seq<string>, key: string, right: seq<string>)
    requires key !in left
    ensures Without(left + [key] + right, key) == left + right
  {
    var whole := left + [key] + right;
    if left == [] {
      assert whole[1..] == right && left + right == right;
    } else {
      assert whole[1..] == left[1..] + [key] + right;
      WithoutMiddle(left[1..], key, right);
      assert left + right == [left[0]] + (left[1..] + right);
    }
  }

  /** The order without the circuit at `p`: those after it move up by one. */
  lemma WithoutAt(order: seq<string>, p: nat)
    requires NoDup(order) && p < |order|
    ensures var rest := Without(order, order[p]);
            && |rest| == |order| - 1
            && (forall i :: 0 <= i < p ==> rest[i] == order[i])
            && (forall i :: p < i < |order| ==> rest[i - 1] == order[i])
  {
    assert order == order[..p] + [order[p]] + order[p + 1..];
    WithoutMiddle(order[..p], order[p], order[p + 1..]);
  }

  lemma {:induction false} NoneIdleCount(st: Store, i: nat)
    requires StoreOk(st) && i <= |st.order| && forall j: nat :: j < i ==> !IdleAt(st, j)
    ensures IdleCount(st, i) == 0
  {
    if i > 0 { NoneIdleCount(st, i - 1); }
  }

  /** `rest` is `st` without the circuit at `p`. */
  ghost predicate IsWithout(rest: Store, st: Store, p: nat)
    requires StoreOk(st) && p < |st.order|
  {
    StoreOk(rest) && |rest.order| == |st.order| - 1 && forall j: nat :: j < |st.order| && j != p ==>
        Moved(rest, st, p, j)
  }

  /** The circuit at `j` is still there, one place up if it came after the one at `p`. */
  ghost predicate Moved(rest: Store, st: Store, p: nat, j: nat)
    requires StoreOk(st) && StoreOk(rest) && p < |st.order| == |rest.order| + 1 && j < |st.order| && j != p
  {
    var i := if j < p then j else j - 1;
    rest.order[i] == st.order[j] && IdleAt(rest, i) == IdleAt(st, j)
  }

  lemma RemoveIsWithout(st: Store, p: nat)
    requires StoreOk(st) && p < |st.order|
    ensures IsWithout(Remove(st, st.order[p]), st, p)
  {
    var rest := Remove(st, st.order[p]);
    RemoveOk(st, st.order[p]);
    WithoutAt(st.order, p);
    forall j: nat | j < |st.order| && j != p ensures Moved(rest, st, p, j) {
      assert rest.order[if j < p then j else j - 1] == st.order[j];
    }
  }

  lemma {:induction false} CountsBefore(st: Store, rest: Store, p: nat, j: nat)
    requires StoreOk(st) && p < |st.order| && IsWithout(rest, st, p) && j <= p
    ensures IdleCount(rest, j) == IdleCount(st, j)
  {
    if j > 0 {
      CountsBefore(st, rest, p, j - 1);
      assert Moved(rest, st, p, j - 1);
    }
  }

  lemma {:induction false} CountsAfter(st: Store, rest: Store, p: nat, j: nat)
    requires StoreOk(st) && p < |st.order| && IsWithout(rest, st, p) && p < j <= |st.order|
    ensures IdleCount(rest, j - 1) == IdleCount(st, j) - (if IdleAt(st, p) then 1 else 0)
    decreases j
  {
    if j == p + 1 {
      CountsBefore(st, rest, p, p);
    } else {
      CountsAfter(st, rest, p, j - 1);
      assert Moved(rest, st, p, j - 1);
    }
  }

  /** Taking out the victim decides nothing about the others. */
  lemma SurvivesStep(st: Store, rest: Store, limit: nat, p: nat, i: nat)
    requires StoreOk(st) && p < |st.order| && VictimAt(st, p) && IsWithout(rest, st, p)
    requires i < |st.order| && limit < |st.order|
    ensures i < p ==> (Survives(st, limit, i) <==> Survives(rest, limit, i))
    ensures i == p ==> !Survives(st, limit, i)
    ensures p < i ==> (Survives(st, limit, i) <==> Survives(rest, limit, i - 1))
  {
    var n := |st.order|;
    NoneIdleCount(st, p);
    CountsAfter(st, rest, p, n);
    if !IdleAt(st, p) {
      NoneIdle(st, p);
      NoneIdleCount(st, n);
    }
    if i < p {
      CountsBefore(st, rest, p, i);
      assert Moved(rest, st, p, i);
    } else if p < i {
      CountsAfter(st, rest, p, i);
      assert Moved(rest, st, p, i);
    }
  }

  /** If the victim is busy, all circuits are, and it is the first. */
  lemma NoneIdle(st: Store, p: nat)
    requires StoreOk(st) && p < |st.order| && VictimAt(st, p) && !IdleAt(st, p)
    ensures p == 0 && forall j: nat :: j < |st.order| ==> !IdleAt(st, j)
  {
    forall j: nat | j < |st.order| ensures !IdleAt(st, j) { assert st.order[j] in st.entries; }
  }

  lemma EvictedStep(st: Store, limit: nat)
    requires StoreOk(st) && |st.order| > limit
    ensures StoreOk(Remove(st, Victim(st))) && Evicted(st, limit) == Evicted(Remove(st, Victim(st)), limit)
    ensures Victim(st) !in Evicted(st, limit).entries
  {
    RemoveOk(st, Victim(st));
  }

  /** Which circuits an eviction takes: the least recently used idle ones first, then the least recently
      used of the others. */
  lemma {:induction false} SurvivesIff(st: Store, limit: nat, i: nat)
    requires StoreOk(st) && i < |st.order|
    ensures st.order[i] in Evicted(st, limit).entries <==> Survives(st, limit, i)
    decreases |st.order|
  {
    if |st.order| > limit {
      VictimIsLeastRecent(st);
      var p: nat :| p < |st.order| && VictimAt(st, p);
      var rest := Remove(st, st.order[p]);
      RemoveIsWithout(st, p);
      SurvivesStep(st, rest, limit, p, i);
      EvictedStep(st, limit);
      if i != p {
        assert Moved(rest, st, p, i);
        SurvivesIff(rest, limit, if i < p then i else i - 1);
      }
    } else {
      assert IdleCount(st, i) <= i;
    }
  }

  lemma {:induction false} WithoutIsFilter(order: seq<string>, key: string)
    requires NoDup(order)
    ensures Without(order, key) == Filter(order, (k: string) => k != key)
  {
    if order != [] {
      var front, last := Front(order), Last(order);
      assert order == front + [last];
      assert forall i, j :: 0 <= i < j < |front| ==> front[i] == order[i] && front[j] == order[j];
      WithoutIsFilter(front, key);
      WithoutSnoc(front, last, key);
      if last == key { assert key !in front; }
    }
  }

  lemma {:induction false} WithoutSnoc(order: seq<string>, last: string, key: string)
    ensures Without(order + [last], key)
         == if key in order then Without(order, key) + [last] else if last == key then order else order + [last]
  {
    if order != [] {
      var rest := order[1..];
      assert order == [order[0]] + rest && (order + [last])[1..] == rest + [last];
      if order[0] != key { WithoutSnoc(rest, last, key); }
    }
  }

  /** The survivors keep their order. */
  lemma {:induction false} EvictedKeepsOrder(st: Store, limit: nat)
    requires StoreOk(st)
    ensures Evicted(st, limit).order == Filter(st.order, (k: string) => k in Evicted(st, limit).entries)
    decreases |st.order|
  {
    var keep := (k: string) => k in Evicted(st, limit).entries;
    if |st.order| > limit {
      var v := Victim(st);
      WithoutProps(st.order, v);
      EvictedKeepsOrder(Remove(st, v), limit);
      WithoutIsFilter(st.order, v);
      FilterTwice(st.order, (k: string) => k != v, keep, keep);
    } else {
      FilterAll(st.order, keep);
    }
  }

  /** `_get`: find the circuit and mark it most recently used, or create it and evict. */
  function Touch(st: Store, key: string, meta: Meta, limit: nat): (r: Store)
    requires StoreOk(st)
    ensures StoreOk(r)
  {
    WithoutProps(st.order, key);
    if key in st.entries then Store(Without(st.order, key) + [key], st.entries)
    else Evicted(Store(st.order + [key], st.entries[key := NewEntry(meta)]), limit)
  }

  /** The circuits an eviction may take without touching a busy one. */
  function IdleKeys(st: Store): set<string> {
    set k | k in st.entries && Idle(st.entries[k].breaker)
  }

  /** The most recently used circuit, if idle, is evicted exactly when every idle circuit has to go. */
  lemma {:induction false} NewcomerEvicted(st: Store, key: string, limit: nat)
    requires StoreOk(st) && st.order != [] && Last(st.order) == key && Idle(st.entries[key].breaker)
    ensures key !in Evicted(st, limit).entries <==> |st.order| - limit >= |IdleKeys(st)|
    ensures key in Evicted(st, limit).entries ==>
              Evicted(st, limit).order != [] && Last(Evicted(st, limit).order) == key
    decreases |st.order|
  {
    var v := Victim(st);
    assert key in IdleKeys(st);
    if |st.order| > limit {
      WithoutProps(st.order, v);
      var rest := Remove(st, v);
      assert v in IdleKeys(st);
      assert IdleKeys(rest) == IdleKeys(st) - {v};
      if v == key {
        VictimIsLeastRecent(st);
        OnlyLastIdle(st);
        assert key !in rest.entries;
      } else {
        WithoutKeepsLast(st.order, v);
        NewcomerEvicted(rest, key, limit);
      }
    }
  }

  /** If the last circuit in recency order is the victim, and idle, no other circuit is idle. */
  lemma OnlyLastIdle(st: Store)
    requires StoreOk(st) && st.order != [] && Victim(st) == Last(st.order) && Idle(st.entries[Last(st.order)].breaker)
    ensures IdleKeys(st) == {Last(st.order)}
  {
    VictimIsLeastRecent(st);
    var i: nat :| i < |st.order| && VictimAt(st, i);
    assert forall j: nat :: j < |st.order| - 1 ==> !IdleAt(st, j);
    forall k | k in IdleKeys(st) ensures k == Last(st.order) {
      assert k in st.order;
      var j: nat :| j < |st.order| && st.order[j] == k;
      assert IdleAt(st, j);
    }
  }

  lemma {:induction false} WithoutKeepsLast(order: seq<string>, key: string)
    requires order != [] && key != Last(order)
    ensures Without(order, key) != [] && Last(Without(order, key)) == Last(order)
  {
    if order[0] != key && |order| > 1 { WithoutKeepsLast(order[1..], key); }
  }

  /** Touching a key changes no circuit's past, creates at most the one asked for and makes it the most
      recently used. The one asked for is missing afterwards exactly if it is new and there are no more
      idle circuits than the registry is over its limit before it: in a registry that is just full,
      exactly if no circuit is idle. */
  lemma TouchKeeps(st: Store, key: string, meta: Meta, limit: nat)
    requires StoreOk(st)
    ensures var r := Touch(st, key, meta, limit);
            && (forall k :: k in r.entries && k != key ==> k in st.entries && r.entries[k] == st.entries[k])
            && (key in r.entries ==> r.entries[key] == if key in st.entries then st.entries[key] else NewEntry(meta))
            && (key in r.entries ==> r.order != [] && Last(r.order) == key)
            && (key !in r.entries <==> key !in st.entries && |st.order| - limit >= |IdleKeys(st)|)
  {
    if key !in st.entries {
      TouchNew(st, key, meta, limit);
    } else {
      WithoutProps(st.order, key);
    }
  }

  lemma TouchNew(st: Store, key: string, meta: Meta, limit: nat)
    requires StoreOk(st) && key !in st.entries
    ensures var grown := Store(st.order + [key], st.entries[key := NewEntry(meta)]);
            && StoreOk(grown) && Touch(st, key, meta, limit) == Evicted(grown, limit)
            && (key in Evicted(grown, limit).entries ==>
                  Evicted(grown, limit).order != [] && Last(Evicted(grown, limit).order) == key)
            && (key !in Evicted(grown, limit).entries <==> |st.order| - limit >= |IdleKeys(st)|)
  {
    var grown := Store(st.order + [key], st.entries[key := NewEntry(meta)]);
    assert IdleKeys(grown) == IdleKeys(st) + {key};
    NewcomerEvicted(grown, key, limit);
  }

  /** Touching a registered circuit only moves it to the end of the recency order. */
  lemma TouchMoves(st: Store, key: string, meta: Meta, limit: nat)
    requires StoreOk(st) && key in st.entries
    ensures Touch(st, key, meta, limit) == Store(Filter(st.order, (k: string) => k != key) + [key], st.entries)
  {
    WithoutIsFilter(st.order, key);
  }

  /** The breaker a caller of `_get` sees: a fresh one when the key is unknown. */
  function Current(st: Store, key: string): Breaker {
    if key in st.entries then st.entries[key].breaker else FRESH
  }

  function Record(st: Store, key: string, e: Stamped): (r: Store)
    ensures StoreOk(st) ==> StoreOk(r)
  {
    if key in st.entries
    then st.(entries := st.entries[key := Extend(st.entries[key], e)])
    else st
  }

  predicate HealthMatches(m: Meta, model: string, target: string) {
    m.model == model && (target == "" || m.baseUrl == target)
  }

  /** The keys of the matching circuits from position `i` on, least recently used first. */
  function HealthKeys(st: Store, model: string, target: string, i: nat): (keys: seq<string>)
    requires StoreOk(st) && i <= |st.order|
    ensures NoDup(keys)
    ensures forall k :: k in keys <==> k in st.order[i..] && HealthMatches(st.entries[k].meta, model, target)
    decreases |st.order| - i
  {
    if i == |st.order| then []
    else
      var rest := HealthKeys(st, model, target, i + 1);
      assert st.order[i..] == [st.order[i]] + st.order[i + 1..];
      if HealthMatches(st.entries[st.order[i]].meta, model, target) then [st.order[i]] + rest else rest
  }

  function RecordEach(st: Store, keys: seq<string>, e: Stamped): (r: Store)
    ensures StoreOk(st) ==> StoreOk(r)
    ensures r.order == st.order && r.entries.Keys == st.entries.Keys
  {
    if keys == [] then st else Record(RecordEach(st, Front(keys), e), Last(keys), e)
  }

  lemma RecordEachStep(st: Store, keys: seq<string>, i: nat, e: Stamped)
    requires i < |keys|
    ensures RecordEach(st, keys[..i + 1], e) == Record(RecordEach(st, keys[..i], e), keys[i], e)
  {
    assert Front(keys[..i + 1]) == keys[..i];
  }

  /** A health report applies one operation to every matching circuit, or to a new one if it is unhealthy
      and nothing matches. */
  function AfterReport(st: Store, model: string, target: string, healthy: bool, now: real, cfg: Settings): (r: Store)
    requires StoreOk(st)
    ensures StoreOk(r)
  {
    var keys := HealthKeys(st, model, target, 0);
    if keys != [] then RecordEach(st, keys, Stamped(now, cfg, if healthy then Healthy else Unhealthy))
    else if healthy then st
    else AfterUnknown(st, model, target, now, cfg)
  }

  function AfterUnknown(st: Store, model: string, target: string, now: real, cfg: Settings): (r: Store)
    requires StoreOk(st)
    ensures StoreOk(r)
  {
    var key := CircuitKey(model, "", target);
    Record(Touch(st, key, MetaFor(key, model, "", target), EntryLimit(cfg)), key, Stamped(now, cfg, Unhealthy))
  }

  function Step(st: Store, ev: Event): (r: Store)
    requires StoreOk(st)
    ensures StoreOk(r)
  {
    var limit := EntryLimit(ev.cfg);
    match ev.call
    case CallAcquire(key, meta) =>
      Record(Touch(st, key, meta, limit), key, Stamped(ev.now, ev.cfg, Acquire))
    case CallRelease(key, ticket) =>
      Record(st, key, Stamped(ev.now, ev.cfg, Release(ticket)))
    case CallSuccess(key, ticket) =>
      Record(Touch(st, key, KeyMeta(key), limit), key, Stamped(ev.now, ev.cfg, Success(ticket)))
    case CallFailure(key, ticket, ra) =>
      Record(Touch(st, key, KeyMeta(key), limit), key, Stamped(ev.now, ev.cfg, Failure(ticket, ra)))
    case CallHealth(model, baseUrl, healthy) =>
      if ev.cfg.enabled then AfterReport(st, model, StripSlashes(baseUrl), healthy, ev.now, ev.cfg) else st
    case CallReset => EMPTY
  }

  /** The events that concern one key get its circuit and apply one operation to it. */
  lemma StepOnKey(st: Store, ev: Event, key: string, meta: Meta, op: Op)
    requires StoreOk(st)
    requires || (ev.call == CallAcquire(key, meta) && op == Acquire)
             || (meta == KeyMeta(key) && op.Success? && ev.call == CallSuccess(key, op.ticket))
             || (meta == KeyMeta(key) && op.Failure? && ev.call == CallFailure(key, op.ticket, op.retryAfter))
    ensures Step(st, ev) == Record(Touch(st, key, meta, EntryLimit(ev.cfg)), key, Stamped(ev.now, ev.cfg, op))
  {
  }

  lemma StepOnHealth(st: Store, now: real, cfg: Settings, model: string, baseUrl: string, healthy: bool)
    requires StoreOk(st)
    ensures Step(st, Event(now, cfg, CallHealth(model, baseUrl, healthy)))
         == if cfg.enabled then AfterReport(st, model, StripSlashes(baseUrl), healthy, now, cfg) else st
  {
  }

  // ----- the registry itself -------------------------------------------------------------------

  /** The number of samples in range, and of failures among them. */
  ghost predicate Tallied(log: seq<Sample>, horizon: real, samples: nat, failures: nat) {
    samples == |InWindow(log, horizon)| && failures == FailureCount(InWindow(log, horizon))
  }

  lemma TallyStep(log: seq<Sample>, i: nat, horizon: real, samples: nat, failures: nat)
    requires i < |log| && Tallied(log[..i], horizon, samples, failures)
    ensures if log[i].at < horizon then Tallied(log[..i + 1], horizon, samples, failures)
            else Tallied(log[..i + 1], horizon, samples + 1, if log[i].ok then failures else failures + 1)
  {
    assert Front(log[..i + 1]) == log[..i];
    var before := InWindow(log[..i], horizon);
    assert before + [] == before && Front(before + [log[i]]) == before;
  }

  class Circuit {
    const key: string
    const meta: Meta
    var phase: Phase
    var consecutiveFailures: nat
    var trips: nat
    var openedAt: real
    var cooldownUntil: real
    var lastFailureAt: real
    var probeInflight: bool
    var probeStarted: real
    var inflight: nat
    var window: seq<Sample>

    ghost function View(): Breaker
      reads this
    {
      Breaker(phase, consecutiveFailures, trips, openedAt, cooldownUntil, lastFailureAt,
              probeInflight, probeStarted, inflight, window)
    }

    constructor (key: string, meta: Meta)
      ensures this.key == key && this.meta == meta && View() == FRESH
    {
      this.key, this.meta := key, meta;
      phase, consecutiveFailures, trips, openedAt, cooldownUntil := Closed, 0, 0, 0.0, 0.0;
      lastFailureAt, probeInflight, probeStarted, inflight, window := 0.0, false, 0.0, 0, [];
    }

    predicate Busy(now: real)
      reads this
    {
      phase == HalfOpen && probeInflight && now - probeStarted < PROBE_STALE_SECONDS
    }

    method Unload()
      modifies this`inflight
      ensures View() == old(View()).(inflight := if old(inflight) > 0 then old(inflight) - 1 else 0)
    {
      inflight := Max(0, inflight - 1);
    }

    /** `deque(maxlen=512).append`. */
    method Sampled(x: Sample)
      modifies this`window
      ensures View() == old(View()).(window := LastN(old(window) + [x], WINDOW_MAX_SAMPLES))
    {
      window := window + [x];
      if |window| > WINDOW_MAX_SAMPLES {
        window := window[|window| - WINDOW_MAX_SAMPLES..];
      }
    }

    method Admit(s: Settings, now: real) returns (ticket: Ticket)
      modifies this
      ensures View() == AfterAcquire(old(View()), s, now)
      ensures ticket == TicketFor(old(View()), s, now)
    {
      inflight := inflight + 1;
      if !s.enabled {
        return Normal;
      }
      if phase == Open && now >= cooldownUntil {
        phase, probeInflight := HalfOpen, false;
      }
      if phase == Closed {
        return Normal;
      }
      if phase == HalfOpen && !Busy(now) {
        probeInflight, probeStarted := true, now;
        return Probe;
      }
      return Forced;
    }

    method Released(ticket: Ticket)
      modifies this
      ensures View() == AfterRelease(old(View()), ticket)
    {
      Unload();
      if ticket == Probe && phase == HalfOpen {
        probeInflight := false;
      }
    }

    method Succeeded(ticket: Ticket, now: real)
      modifies this
      ensures View() == AfterSuccess(old(View()), ticket, now)
    {
      if ticket != NoTicket {
        Unload();
      }
      Sampled(Sample(now, true));
      consecutiveFailures := 0;
      if phase != Closed {
        phase, trips, probeInflight, cooldownUntil := Closed, 0, false, 0.0;
      }
    }

    method Failed(s: Settings, ticket: Ticket, retryAfter: Option<real>, now: real)
      modifies this
      ensures View() == AfterFailure(old(View()), s, now, ticket, retryAfter)
    {
      NoteFailure(ticket, now);
      if !s.enabled {
        return;
      }
      var shouldTrip := MustTrip(s, now, retryAfter);
      if shouldTrip {
        DoTrip(s, now, retryAfter);
      } else if phase == Open && retryAfter.Some? && retryAfter.value != 0.0 {
        cooldownUntil := MaxReal(cooldownUntil, now + MinReal(retryAfter.value, s.maxCooldownSeconds));
      }
    }

    /** The bookkeeping of a failure, enabled or not. */
    method NoteFailure(ticket: Ticket, now: real)
      modifies this
      ensures View() == Counted(old(View()), now, ticket)
    {
      if ticket != NoTicket {
        Unload();
      }
      Sampled(Sample(now, false));
      consecutiveFailures := consecutiveFailures + 1;
      lastFailureAt := now;
    }

    method MustTrip(s: Settings, now: real, retryAfter: Option<real>) returns (shouldTrip: bool)
      ensures shouldTrip == ShouldTrip(View(), s, now, retryAfter)
    {
      shouldTrip := false;
      if phase == HalfOpen {
        shouldTrip := true;
      } else if phase == Closed {
        if retryAfter.Some? && retryAfter.value > 0.0 && s.openOnRetryAfter {
          shouldTrip := true;
        } else if consecutiveFailures >= Max(s.failureThreshold, 1) {
          shouldTrip := true;
        } else {
          shouldTrip := RateExceeded(s, now);
        }
      }
    }

    /** `_rate_tripped`: walk the window, counting the samples in range and the failures among them. */
    method RateExceeded(s: Settings, now: real) returns (exceeded: bool)
      ensures exceeded == RateTripped(s, window, now)
    {
      if s.rateThreshold <= 0.0 {
        return false;
      }
      var horizon := now - MaxReal(s.windowSeconds, 1.0);
      var samples, failures := 0, 0;
      for i := 0 to |window|
        invariant Tallied(window[..i], horizon, samples, failures)
      {
        TallyStep(window, i, horizon, samples, failures);
        if window[i].at >= horizon {
          samples := samples + 1;
          if !window[i].ok {
            failures := failures + 1;
          }
        }
      }
      assert window[..|window|] == window;
      if samples < Max(s.minRequests, 1) {
        return false;
      }
      return failures as real / samples as real >= s.rateThreshold;
    }

    method DoTrip(s: Settings, now: real, retryAfter: Option<real>)
      modifies this
      ensures View() == Trip(old(View()), s, now, retryAfter)
    {
      trips := trips + 1;
      var cooldown: real;
      if retryAfter.Some? && retryAfter.value > 0.0 {
        cooldown := MinReal(retryAfter.value, CooldownCap(s));
      } else {
        cooldown := TripCooldown(s, trips);
      }
      phase, openedAt, cooldownUntil, probeInflight := Open, now, now + cooldown, false;
    }

    method Perform(e: Stamped) returns (ticket: Ticket)
      modifies this
      ensures View() == Apply(old(View()), e)
      ensures e.op.Acquire? ==> ticket == TicketFor(old(View()), e.cfg, e.now)
    {
      ticket := NoTicket;
      match e.op {
        case Acquire => ticket := Admit(e.cfg, e.now);
        case Release(t) => Released(t);
        case Success(t) => Succeeded(t, e.now);
        case Failure(t, ra) => Failed(e.cfg, t, ra, e.now);
        case Healthy => Probed(e.cfg, e.now, true);
        case Unhealthy => Probed(e.cfg, e.now, false);
      }
    }

    method Probed(s: Settings, now: real, healthy: bool)
      modifies this
      ensures View() == if healthy then AfterHealthy(old(View())) else AfterUnhealthy(old(View()), s, now)
    {
      if healthy {
        if phase == Open {
          phase, probeInflight := HalfOpen, false;
        }
      } else {
        lastFailureAt := now;
        if phase != Open {
          DoTrip(s, now, None);
        }
      }
    }
  }

  /** A circuit object carries the fields its entry says. */
  ghost predicate Mirrors(c: Circuit, key: string, entry: Entry)
    reads c
  {
    c.key == key && c.meta == entry.meta && c.View() == entry.breaker
  }

  class CircuitRegistry {
    var settings: Settings
    var order: seq<string>
    var circuits: map<string, Circuit>
    /** The recency order, and what was done to each live circuit since it was created. */
    ghost var st: Store

    ghost predicate Valid()
      reads this, circuits.Values
    {
      && StoreOk(st) && st.order == order
      && circuits.Keys == st.entries.Keys
      && forall k :: k in circuits ==> Mirrors(circuits[k], k, st.entries[k])
    }

    constructor (settings: Settings)
      ensures Valid() && st == EMPTY && this.settings == settings
    {
      this.settings := settings;
      order, circuits, st := [], map[], EMPTY;
    }

    method Configure(settings: Settings)
      requires Valid()
      modifies this`settings
      ensures Valid() && st == old(st) && this.settings == settings
    {
      this.settings := settings;
    }

    method Drop(key: string)
      requires Valid()
      modifies this`order, this`circuits, this`st
      ensures Valid() && st == Remove(old(st), key)
      ensures circuits == old(circuits) - {key}
    {
      RemoveOk(st, key);
      order := Without(order, key);
      circuits := circuits - {key};
      st := Remove(st, key);
    }

    method FindVictim() returns (victim: string)
      requires Valid() && order != []
      ensures victim == Victim(st)
    {
      victim := order[0];
      var i := 0;
      while i < |order|
        invariant 0 <= i <= |order|
        invariant FirstIdle(st, 0) == FirstIdle(st, i)
      {
        var c := circuits[order[i]];
        assert c.View() == st.entries[order[i]].breaker;
        if c.phase == Closed && c.inflight == 0 {
          return order[i];
        }
        i := i + 1;
      }
    }

    method Evict()
      requires Valid()
      modifies this`order, this`circuits, this`st
      ensures Valid()
      ensures st == Evicted(old(st), EntryLimit(settings))
      ensures forall k :: k in circuits ==> k in old(circuits) && circuits[k] == old(circuits[k])
    {
      var limit := Max(settings.maxEntries, MIN_ENTRIES);
      while |order| > limit
        invariant Valid()
        invariant Evicted(st, limit) == Evicted(old(st), limit)
        invariant forall k :: k in circuits ==> k in old(circuits) && circuits[k] == old(circuits[k])
        decreases |order|
      {
        WithoutProps(order, Victim(st));
        var victim := FindVictim();
        Drop(victim);
      }
    }

    method Insert(key: string, meta: Meta) returns (c: Circuit)
      requires Valid() && key !in circuits
      modifies this`order, this`circuits, this`st
      ensures Valid()
      ensures st == Store(old(st).order + [key], old(st).entries[key := NewEntry(meta)])
      ensures fresh(c) && c.key == key && c.View() == FRESH && circuits == old(circuits)[key := c]
    {
      c := new Circuit(key, meta);
      order := order + [key];
      circuits := circuits[key := c];
      st := Store(st.order + [key], st.entries[key := NewEntry(meta)]);
    }

    /** `_get`. The circuit returned is in the registry unless it was evicted on the spot. */
    method Get(key: string, meta: Meta) returns (c: Circuit)
      requires Valid()
      modifies this`order, this`circuits, this`st
      ensures Valid()
      ensures st == Touch(old(st), key, meta, EntryLimit(settings))
      ensures c.key == key && c.View() == Current(old(st), key)
      ensures fresh(c) || (key in old(circuits) && c == old(circuits[key]))
      ensures forall k :: k in circuits ==>
                if k == key then circuits[k] == c else k in old(circuits) && circuits[k] == old(circuits[k])
    {
      if key in circuits {
        c := circuits[key];
        assert Mirrors(c, key, st.entries[key]);
        MoveToEnd(key);
      } else {
        c := Insert(key, meta);
        Evict();
      }
    }

    method MoveToEnd(key: string)
      requires Valid() && key in circuits
      modifies this`order, this`st
      ensures Valid() && st == Store(Without(old(st).order, key) + [key], old(st).entries)
    {
      WithoutProps(order, key);
      order := Without(order, key) + [key];
      st := Store(order, st.entries);
    }

    /** Apply one operation to a circuit obtained from `_get`: the circuit's history grows by the
        operation, and an evicted circuit changes nothing the registry can see. */
    method Drive(c: Circuit, e: Stamped) returns (ticket: Ticket)
      requires Valid() && (c.key in circuits ==> circuits[c.key] == c)
      modifies this`st, c
      ensures Valid() && st == Record(old(st), c.key, e)
      ensures e.op.Acquire? ==> ticket == TicketFor(old(c.View()), e.cfg, e.now)
    {
      assert forall k :: k in circuits && k != c.key ==> circuits[k] != c;
      ticket := c.Perform(e);
      if c.key in circuits {
        st := Record(st, c.key, e);
      }
    }

    /** One pass through the lock on behalf of one key: get the circuit, apply the operation. */
    method Update(key: string, meta: Meta, e: Stamped) returns (ticket: Ticket)
      requires Valid()
      modifies this`order, this`circuits, this`st, circuits.Values
      ensures Valid()
      ensures forall k :: k in circuits ==>
                fresh(circuits[k]) || (k in old(circuits) && circuits[k] == old(circuits[k]))
      ensures st == Record(Touch(old(st), key, meta, EntryLimit(settings)), key, e)
      ensures e.op.Acquire? ==> ticket == TicketFor(Current(old(st), key), e.cfg, e.now)
    {
      var c := Get(key, meta);
      ticket := Drive(c, e);
    }

    method Acquire(key: string, model: string, deployment: string, baseUrl: string, now: real) returns (ticket: Ticket)
      requires Valid()
      modifies this`order, this`circuits, this`st, circuits.Values
      ensures Valid()
      ensures forall k :: k in circuits ==>
                fresh(circuits[k]) || (k in old(circuits) && circuits[k] == old(circuits[k]))
      ensures st == Step(old(st),
                            Event(now, settings, CallAcquire(key, MetaFor(key, model, deployment, baseUrl))))
      ensures ticket == TicketFor(Current(old(st), key), settings, now)
    {
      StepOnKey(st, Event(now, settings, CallAcquire(key, MetaFor(key, model, deployment, baseUrl))), key,
                MetaFor(key, model, deployment, baseUrl), CircuitMachine.Acquire);
      ticket := Update(key, MetaFor(key, model, deployment, baseUrl), Stamped(now, settings, CircuitMachine.Acquire));
    }

    method Release(key: string, ticket: Ticket, now: real)
      requires Valid()
      modifies this`st, circuits.Values
      ensures Valid()
      ensures st == Step(old(st), Event(now, settings, CallRelease(key, ticket)))
    {
      if key !in circuits {
        return;
      }
      var _ := Drive(circuits[key], Stamped(now, settings, CircuitMachine.Release(ticket)));
    }

    method RecordSuccess(key: string, ticket: Ticket, now: real)
      requires Valid()
      modifies this`order, this`circuits, this`st, circuits.Values
      ensures Valid()
      ensures forall k :: k in circuits ==>
                fresh(circuits[k]) || (k in old(circuits) && circuits[k] == old(circuits[k]))
      ensures st == Step(old(st), Event(now, settings, CallSuccess(key, ticket)))
    {
      StepOnKey(st, Event(now, settings, CallSuccess(key, ticket)), key, KeyMeta(key), Success(ticket));
      var _ := Update(key, KeyMeta(key), Stamped(now, settings, Success(ticket)));
    }

    method RecordFailure(key: string, ticket: Ticket, retryAfter: Option<real>, now: real)
      requires Valid()
      modifies this`order, this`circuits, this`st, circuits.Values
      ensures Valid()
      ensures forall k :: k in circuits ==>
                fresh(circuits[k]) || (k in old(circuits) && circuits[k] == old(circuits[k]))
      ensures st == Step(old(st), Event(now, settings, CallFailure(key, ticket, retryAfter)))
    {
      var op := Failure(ticket, retryAfter);
      StepOnKey(st, Event(now, settings, CallFailure(key, ticket, retryAfter)), key, KeyMeta(key), op);
      var _ := Update(key, KeyMeta(key), Stamped(now, settings, op));
    }

    method IsAllowed(key: string, now: real) returns (yes: bool)
      requires Valid()
      ensures yes <==> TicketFor(Current(st, key), settings, now) != Forced
    {
      AllowsPredictsTicket(Current(st, key), settings, now);
      if !settings.enabled || key !in circuits {
        return true;
      }
      var c := circuits[key];
      assert c.View() == Current(st, key);
      var st := if c.phase == Open && now >= c.cooldownUntil then HalfOpen else c.phase;
      if st == Closed {
        return true;
      }
      if st == HalfOpen {
        return !c.Busy(now);
      }
      return false;
    }

    method ReportHealth(model: string, baseUrl: string, healthy: bool, now: real)
      requires Valid()
      modifies this`order, this`circuits, this`st, circuits.Values
      ensures Valid()
      ensures forall k :: k in circuits ==>
                fresh(circuits[k]) || (k in old(circuits) && circuits[k] == old(circuits[k]))
      ensures st == Step(old(st), Event(now, settings, CallHealth(model, baseUrl, healthy)))
    {
      StepOnHealth(st, now, settings, model, baseUrl, healthy);
      if !settings.enabled {
        return;
      }
      Report(model, StripSlashes(baseUrl), healthy, now);
    }

    method Report(model: string, target: string, healthy: bool, now: real)
      requires Valid()
      modifies this`order, this`circuits, this`st, circuits.Values
      ensures Valid()
      ensures forall k :: k in circuits ==>
                fresh(circuits[k]) || (k in old(circuits) && circuits[k] == old(circuits[k]))
      ensures st == AfterReport(old(st), model, target, healthy, now, settings)
    {
      var matches := Matching(model, target, 0);
      if matches != [] {
        ProbeEach(matches, Stamped(now, settings, if healthy then Healthy else Unhealthy));
      } else if !healthy {
        ReportUnknown(model, target, now);
      }
    }

    /** An unhealthy report that matches no circuit creates one. */
    method ReportUnknown(model: string, target: string, now: real)
      requires Valid()
      modifies this`order, this`circuits, this`st, circuits.Values
      ensures Valid()
      ensures forall k :: k in circuits ==>
                fresh(circuits[k]) || (k in old(circuits) && circuits[k] == old(circuits[k]))
      ensures st == AfterUnknown(old(st), model, target, now, settings)
    {
      var key := CircuitKey(model, "", target);
      var _ := Update(key, MetaFor(key, model, "", target), Stamped(now, settings, Unhealthy));
    }

    method ProbeEach(matches: seq<string>, e: Stamped)
      requires Valid() && forall k :: k in matches ==> k in circuits
      modifies this`st, circuits.Values
      ensures Valid() && st == RecordEach(old(st), matches, e)
    {
      var i := 0;
      while i < |matches|
        invariant 0 <= i <= |matches|
        invariant Valid() && st == RecordEach(old(st), matches[..i], e)
      {
        var _ := Drive(circuits[matches[i]], e);
        RecordEachStep(old(st), matches, i, e);
        i := i + 1;
      }
      assert matches[..|matches|] == matches;
    }

    /** The keys of the matching circuits, as the list comprehension of `report_health`. */
    function Matching(model: string, target: string, i: nat): (keys: seq<string>)
      requires Valid() && i <= |order|
      reads this, circuits.Values
      ensures keys == HealthKeys(st, model, target, i)
      decreases |order| - i
    {
      if i == |order| then []
      else
        var rest := Matching(model, target, i + 1);
        if HealthMatches(circuits[order[i]].meta, model, target) then [order[i]] + rest else rest
    }

    method Reset()
      requires Valid()
      modifies this`order, this`circuits, this`st
      ensures Valid() && st == EMPTY
    {
      order, circuits, st := [], map[], EMPTY;
    }
  }
}
