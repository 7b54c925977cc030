/** The model registry: a name and alias index rebuilt from the database, the previous definitions
    and the YAML configuration. */
module ModelRegistry {
  import opened Prelude
  import opened Models

  /** The two dicts of the registry. */
  datatype Index = Index(models: map<string, Model>, aliases: map<string, string>)

  const NO_MODELS: Index := Index(map[], map[])

  ghost predicate FiledByName(models: map<string, Model>) {
    forall n :: n in models ==> models[n].name == n
  }

  /** The registered model `n` lists the alias. */
  predicate Owns(ix: Index, n: string, alias: string) {
    n in ix.models && alias in ix.models[n].aliases
  }

  /** The alias map has the alias exactly if a registered model lists it, under that model's name, and
      the alias is not another model's name. */
  ghost predicate AliasOk(ix: Index, alias: string) {
    && (alias in ix.aliases ==> Owns(ix, ix.aliases[alias], alias))
    && (forall n :: Owns(ix, n, alias) ==> alias in ix.aliases && ix.aliases[alias] == n)
    && (alias in ix.aliases && alias in ix.models ==> ix.aliases[alias] == alias)
  }

  /** The index invariant: models are filed under their own names, and the alias map is exactly the
      union of their aliases, none of which is another model's name. */
  ghost predicate Agrees(ix: Index) {
    FiledByName(ix.models) && forall a :: AliasOk(ix, a)
  }

  // ----- adding one model -------------------------------------------------------------------------

  /** Why a model cannot be added; the registry only logs it. */
  datatype Refusal = Added | DuplicateName | NameIsAlias | DuplicateAlias(alias: string) | AliasIsName(alias: string)

  predicate AliasTaken(ix: Index, name: string, alias: string) {
    || (alias in ix.aliases && ix.aliases[alias] != name)
    || (alias in ix.models && alias != name)
  }

  predicate CanAdd(ix: Index, m: Model) {
    && m.name !in ix.models
    && m.name !in ix.aliases
    && forall a :: a in m.aliases ==> !AliasTaken(ix, m.name, a)
  }

  function WithAliases(aliases: map<string, string>, names: seq<string>, owner: string): map<string, string> {
    if names == [] then aliases else WithAliases(aliases, Front(names), owner)[Last(names) := owner]
  }

  function Insert(ix: Index, m: Model): Index {
    Index(ix.models[m.name := m], WithAliases(ix.aliases, m.aliases, m.name))
  }

  function TryAdd(ix: Index, m: Model): Index {
    if CanAdd(ix, m) then Insert(ix, m) else ix
  }

  lemma {:induction false} WithAliasesLookup(aliases: map<string, string>, names: seq<string>, owner: string, a: string)
    ensures a in WithAliases(aliases, names, owner) <==> a in aliases || a in names
    ensures a in names ==> WithAliases(aliases, names, owner)[a] == owner
    ensures a in aliases && a !in names ==> WithAliases(aliases, names, owner)[a] == aliases[a]
  {
    if names != [] {
      WithAliasesLookup(aliases, Front(names), owner, a);
      assert names == Front(names) + [Last(names)];
    }
  }

  lemma TryAddAgrees(ix: Index, m: Model)
    requires Agrees(ix)
    ensures Agrees(TryAdd(ix, m))
  {
    if CanAdd(ix, m) {
      forall a ensures AliasOk(Insert(ix, m), a) {
        assert AliasOk(ix, a);
        WithAliasesLookup(ix.aliases, m.aliases, m.name, a);
        assert a in m.aliases ==> !AliasTaken(ix, m.name, a);
        forall n | Owns(Insert(ix, m), n, a) ensures n == m.name || Owns(ix, n, a) { }
      }
    }
  }

  // ----- rebuilding from the database ------------------------------------------------------------

  /** One DB model: the new definition if it fits, else the previous one if that fits. */
  function AddDb(ix: Index, previous: map<string, Model>, m: Model): Index {
    if CanAdd(ix, m) then Insert(ix, m)
    else if m.name in previous then TryAdd(ix, previous[m.name])
    else ix
  }

  function AddAllDb(previous: map<string, Model>, db: seq<Model>): Index {
    if db == [] then NO_MODELS else AddDb(AddAllDb(previous, Front(db)), previous, Last(db))
  }

  /** One YAML model: kept when no DB row governs its name and nothing registered it. */
  function AddYaml(ix: Index, known: set<string>, m: Model): Index {
    if m.name in known || m.name in ix.models then ix else TryAdd(ix, m)
  }

  function AddAllYaml(ix: Index, known: set<string>, yaml: seq<Model>): Index {
    if yaml == [] then ix else AddYaml(AddAllYaml(ix, known, Front(yaml)), known, Last(yaml))
  }

  function Rebuilt(previous: map<string, Model>, yaml: seq<Model>, db: seq<Model>, known: set<string>): Index {
    AddAllYaml(AddAllDb(previous, db), known, yaml)
  }

  function Names(ms: seq<Model>): set<string> {
    set m | m in ms :: m.name
  }

  lemma {:induction false} AddAllDbAgrees(previous: map<string, Model>, db: seq<Model>)
    ensures Agrees(AddAllDb(previous, db))
  {
    if db != [] {
      AddAllDbAgrees(previous, Front(db));
      var ix := AddAllDb(previous, Front(db));
      TryAddAgrees(ix, Last(db));
      if Last(db).name in previous { TryAddAgrees(ix, previous[Last(db).name]); }
    }
  }

  /** The index invariant holds after a rebuild from any database, YAML and previous state. */
  lemma {:induction false} RebuildAgrees(previous: map<string, Model>, yaml: seq<Model>, db: seq<Model>,
                                         known: set<string>)
    ensures Agrees(Rebuilt(previous, yaml, db, known))
  {
    if yaml == [] {
      AddAllDbAgrees(previous, db);
    } else {
      RebuildAgrees(previous, Front(yaml), db, known);
      TryAddAgrees(Rebuilt(previous, Front(yaml), db, known), Last(yaml));
    }
  }

  /** Where a registered definition can come from. */
  ghost predicate Sourced(m: Model, previous: map<string, Model>, yaml: seq<Model>, db: seq<Model>,
                          known: set<string>) {
    || m in db
    || (m.name in Names(db) && m.name in previous && previous[m.name] == m)
    || (m in yaml && m.name !in known)
  }

  lemma {:induction false} DbSources(previous: map<string, Model>, db: seq<Model>, n: string)
    requires FiledByName(previous) && n in AddAllDb(previous, db).models
    ensures var m := AddAllDb(previous, db).models[n];
            m.name == n && (m in db || (n in Names(db) && n in previous && previous[n] == m))
  {
    var ix, last := AddAllDb(previous, Front(db)), Last(db);
    assert db == Front(db) + [last];
    assert last in db && last.name in Names(db);
    if n in ix.models && AddAllDb(previous, db).models[n] == ix.models[n] {
      DbSources(previous, Front(db), n);
      assert n in Names(Front(db)) ==> n in Names(db);
    }
  }

  /** Every registered model is an active DB model, the previous definition of a DB model that could
      not be added, or a YAML model no DB row governs. */
  lemma {:induction false} RebuildSources(
    previous: map<string, Model>, yaml: seq<Model>, db: seq<Model>, known: set<string>, n: string)
    requires FiledByName(previous) && n in Rebuilt(previous, yaml, db, known).models
    ensures Rebuilt(previous, yaml, db, known).models[n].name == n
    ensures Sourced(Rebuilt(previous, yaml, db, known).models[n], previous, yaml, db, known)
  {
    if yaml == [] {
      DbSources(previous, db, n);
    } else {
      var ix := Rebuilt(previous, Front(yaml), db, known);
      assert yaml == Front(yaml) + [Last(yaml)];
      if n in ix.models && Rebuilt(previous, yaml, db, known).models[n] == ix.models[n] {
        RebuildSources(previous, Front(yaml), db, known, n);
      }
    }
  }

  /** A YAML model whose DB row was deactivated or deleted is gone. */
  lemma GovernedYamlAbsent(previous: map<string, Model>, yaml: seq<Model>, db: seq<Model>, known: set<string>,
                           n: string)
    requires FiledByName(previous) && n in known && n !in Names(db)
    ensures n !in Rebuilt(previous, yaml, db, known).models
  {
    if n in Rebuilt(previous, yaml, db, known).models {
      RebuildSources(previous, yaml, db, known, n);
    }
  }

  // ----- who is registered after a reload ----------------------------------------------------------

  ghost predicate DistinctNames(ms: seq<Model>) {
    forall i, j :: 0 <= i < j < |ms| ==> ms[i].name != ms[j].name
  }

  /** Two models cannot both be registered: they share a name or an alias, or one's name is an alias of the
      other. */
  predicate Clash(a: Model, b: Model) {
    a.name == b.name || a.name in b.aliases || b.name in a.aliases || exists x :: x in a.aliases && x in b.aliases
  }

  /** A definition fits beside these models. */
  ghost predicate Fits(models: map<string, Model>, m: Model) {
    forall n :: n in models ==> !Clash(models[n], m)
  }

  /** The checks on the two dicts come down to the models alone. */
  lemma CanAddIff(ix: Index, m: Model)
    requires Agrees(ix)
    ensures CanAdd(ix, m) <==> Fits(ix.models, m)
  {
    assert AliasOk(ix, m.name);
    if CanAdd(ix, m) {
      forall n | n in ix.models ensures !Clash(ix.models[n], m) {
        assert m.name in ix.models[n].aliases ==> Owns(ix, n, m.name);
        forall x | x in ix.models[n].aliases ensures x !in m.aliases {
          assert AliasOk(ix, x) && Owns(ix, n, x);
          assert x in m.aliases ==> !AliasTaken(ix, m.name, x);
        }
        assert n in m.aliases ==> !AliasTaken(ix, m.name, n);
      }
    }
    if Fits(ix.models, m) {
      assert m.name in ix.models ==> Clash(ix.models[m.name], m);
      assert m.name in ix.aliases ==> Clash(ix.models[ix.aliases[m.name]], m);
      forall a | a in m.aliases ensures !AliasTaken(ix, m.name, a) {
        assert AliasOk(ix, a);
        assert a in ix.aliases ==> Clash(ix.models[ix.aliases[a]], m);
        assert a in ix.models ==> Clash(ix.models[a], m);
      }
    }
  }

  /** The models registered under some names. */
  function Under(models: map<string, Model>, names: set<string>): map<string, Model> {
    map n | n in models && n in names :: models[n]
  }

  ghost predicate NamedFrom(ms: seq<Model>, i: nat, n: string) {
    exists k: nat :: i <= k < |ms| && ms[k].name == n
  }

  lemma NamesAt(ms: seq<Model>, i: nat, n: string)
    requires i <= |ms|
    ensures n in Names(ms[..i]) <==> exists k: nat :: k < i && ms[k].name == n
  {
    if n in Names(ms[..i]) {
      var m :| m in ms[..i] && m.name == n;
      var k: nat :| k < i && ms[..i][k] == m;
      assert ms[k].name == n;
    }
    if k: nat :| k < i && ms[k].name == n {
      assert ms[..i][k] in ms[..i];
    }
  }

  lemma NamedLater(ms: seq<Model>, i: nat, n: string)
    requires i < |ms|
    ensures NamedFrom(Front(ms), i, n) || n == Last(ms).name ==> NamedFrom(ms, i, n)
  {
    if NamedFrom(Front(ms), i, n) {
      var k: nat :| i <= k < |Front(ms)| && Front(ms)[k].name == n;
      assert ms[k].name == n;
    } else if n == Last(ms).name {
      assert ms[|ms| - 1].name == n;
    }
  }

  lemma DbAddsLast(previous: map<string, Model>, db: seq<Model>, n: string)
    requires FiledByName(previous) && db != [] && n in AddAllDb(previous, db).models
    ensures n in AddAllDb(previous, Front(db)).models || n == Last(db).name
  {
  }

  lemma DbExtends(previous: map<string, Model>, db: seq<Model>)
    requires FiledByName(previous) && db != []
    ensures Extends(AddAllDb(previous, Front(db)).models, AddAllDb(previous, db).models)
  {
  }

  /** Later rows only add models, under their own names. */
  lemma {:induction false} DbGrows(previous: map<string, Model>, db: seq<Model>, i: nat)
    requires FiledByName(previous) && i <= |db|
    ensures Extends(AddAllDb(previous, db[..i]).models, AddAllDb(previous, db).models)
    ensures forall n :: n in AddAllDb(previous, db).models && n !in AddAllDb(previous, db[..i]).models ==>
                          NamedFrom(db, i, n)
    decreases |db|
  {
    if i == |db| {
      assert db[..i] == db;
    } else {
      assert Front(db)[..i] == db[..i];
      DbGrows(previous, Front(db), i);
      DbExtends(previous, db);
      forall n | n in AddAllDb(previous, db).models && n !in AddAllDb(previous, db[..i]).models
        ensures NamedFrom(db, i, n)
      {
        NamedLater(db, i, n);
        DbAddsLast(previous, db, n);
      }
    }
  }

  ghost predicate Extends(a: map<string, Model>, b: map<string, Model>) {
    forall n :: n in a ==> n in b && b[n] == a[n]
  }

  lemma {:induction false} YamlGrows(ix: Index, known: set<string>, yaml: seq<Model>, i: nat)
    requires i <= |yaml|
    ensures Extends(AddAllYaml(ix, known, yaml[..i]).models, AddAllYaml(ix, known, yaml).models)
    ensures forall n :: n in AddAllYaml(ix, known, yaml).models && n !in AddAllYaml(ix, known, yaml[..i]).models ==>
                          n !in known && NamedFrom(yaml, i, n)
    decreases |yaml|
  {
    if i == |yaml| {
      assert yaml[..i] == yaml;
    } else {
      assert Front(yaml)[..i] == yaml[..i];
      YamlGrows(ix, known, Front(yaml), i);
      forall n | n in AddAllYaml(ix, known, yaml).models && n !in AddAllYaml(ix, known, yaml[..i]).models
        ensures n !in known && NamedFrom(yaml, i, n)
      {
        NamedLater(yaml, i, n);
      }
    }
  }

  /** What was registered when row `i` had its turn is what is registered in the end under the names of the
      rows before it. */
  lemma DbBefore(previous: map<string, Model>, yaml: seq<Model>, db: seq<Model>, known: set<string>, i: nat)
    requires FiledByName(previous) && DistinctNames(db) && Names(db) <= known && i <= |db|
    ensures AddAllDb(previous, db[..i]).models == Under(Rebuilt(previous, yaml, db, known).models, Names(db[..i]))
  {
    var early, late := AddAllDb(previous, db[..i]).models, AddAllDb(previous, db).models;
    var result := Rebuilt(previous, yaml, db, known).models;
    DbGrows(previous, db, i);
    YamlGrows(AddAllDb(previous, db), known, yaml, 0);
    assert yaml[..0] == [];
    assert db[..|db|] == db;
    forall n ensures n in early <==> n in result && n in Names(db[..i]) {
      NamesAt(db, i, n);
      NamesAt(db, |db|, n);
      if n in early {
        DbSources(previous, db[..i], n);
      }
    }
  }

  lemma AddsLast(previous: map<string, Model>, db: seq<Model>, i: nat)
    requires i < |db|
    ensures AddAllDb(previous, db[..i + 1]) == AddDb(AddAllDb(previous, db[..i]), previous, db[i])
  {
    assert Front(db[..i + 1]) == db[..i];
  }

  /** What each database row gets in a reload: its new definition exactly if that fits beside the models
      registered from the rows before it; else the definition it had before, exactly if that fits; else
      nothing. */
  lemma DbRowGets(previous: map<string, Model>, yaml: seq<Model>, db: seq<Model>, known: set<string>, i: nat)
    requires FiledByName(previous) && DistinctNames(db) && Names(db) <= known && i < |db|
    ensures var result := Rebuilt(previous, yaml, db, known).models;
            var before, n := Under(result, Names(db[..i])), db[i].name;
            if Fits(before, db[i]) then n in result && result[n] == db[i]
            else if n in previous && Fits(before, previous[n]) then n in result && result[n] == previous[n]
            else n !in result
  {
    var ix, n := AddAllDb(previous, db[..i]), db[i].name;
    DbBefore(previous, yaml, db, known, i);
    AddAllDbAgrees(previous, db[..i]);
    CanAddIff(ix, db[i]);
    if n in previous { CanAddIff(ix, previous[n]); }
    AddsLast(previous, db, i);
    FreshName(previous, db, i);
    DbSettled(previous, db, i);
    assert db[i] in db && n in Names(db);
    YamlSettled(AddAllDb(previous, db), known, yaml, n);
  }

  lemma YamlBefore(previous: map<string, Model>, yaml: seq<Model>, db: seq<Model>, known: set<string>, i: nat)
    requires FiledByName(previous) && DistinctNames(yaml) && Names(db) <= known && i <= |yaml|
    ensures Rebuilt(previous, yaml[..i], db, known).models
         == Under(Rebuilt(previous, yaml, db, known).models, Names(db) + Names(yaml[..i]))
  {
    var early, result := Rebuilt(previous, yaml[..i], db, known).models, Rebuilt(previous, yaml, db, known).models;
    YamlGrows(AddAllDb(previous, db), known, yaml, i);
    forall n ensures n in early <==> n in result && n in Names(db) + Names(yaml[..i]) {
      NamesAt(yaml, i, n);
      if n in early {
        RebuildSources(previous, yaml[..i], db, known, n);
      }
    }
  }

  /** What each YAML model gets: a place exactly if no database row has its name and it fits beside the
      models of the database and of the YAML models before it. */
  lemma YamlRowGets(previous: map<string, Model>, yaml: seq<Model>, db: seq<Model>, known: set<string>, i: nat)
    requires FiledByName(previous) && DistinctNames(yaml) && Names(db) <= known && i < |yaml|
    requires yaml[i].name !in known
    ensures var result := Rebuilt(previous, yaml, db, known).models;
            var n := yaml[i].name;
            if Fits(Under(result, Names(db) + Names(yaml[..i])), yaml[i]) then n in result && result[n] == yaml[i]
            else n !in result
  {
    var ix, next := Rebuilt(previous, yaml[..i], db, known), Rebuilt(previous, yaml[..i + 1], db, known);
    var n := yaml[i].name;
    YamlBefore(previous, yaml, db, known, i);
    RebuildAgrees(previous, yaml[..i], db, known);
    CanAddIff(ix, yaml[i]);
    assert Front(yaml[..i + 1]) == yaml[..i];
    YamlGrows(AddAllDb(previous, db), known, yaml, i + 1);
    NamesAt(yaml, i, n);
    assert !NamedFrom(yaml, i + 1, n);
  }

  // ----- a reload is a fixpoint --------------------------------------------------------------------

  /** Later DB models never change what an earlier name got. */
  lemma {:induction false} DbSettled(previous: map<string, Model>, db: seq<Model>, i: nat)
    requires FiledByName(previous) && DistinctNames(db) && i < |db|
    ensures var early := AddAllDb(previous, db[..i + 1]).models;
            var late := AddAllDb(previous, db).models;
            && (db[i].name in early <==> db[i].name in late)
            && (db[i].name in early ==> early[db[i].name] == late[db[i].name])
    decreases |db|
  {
    if i + 1 == |db| {
      assert db[..i + 1] == db;
    } else {
      assert Front(db)[..i + 1] == db[..i + 1];
      DbSettled(previous, Front(db), i);
    }
  }

  /** YAML models never touch a name the database knows. */
  lemma {:induction false} YamlSettled(ix: Index, known: set<string>, yaml: seq<Model>, n: string)
    requires n in known
    ensures n in AddAllYaml(ix, known, yaml).models <==> n in ix.models
    ensures n in ix.models ==> AddAllYaml(ix, known, yaml).models[n] == ix.models[n]
  {
    if yaml != [] { YamlSettled(ix, known, Front(yaml), n); }
  }

  /** With a second run's "previous" being the first run's result, every prefix of the DB list is
      processed exactly as it was the first time. */
  lemma {:induction false} SameDbPrefix(previous: map<string, Model>, result: map<string, Model>, db: seq<Model>,
                                        i: nat)
    requires FiledByName(previous) && DistinctNames(db) && i <= |db|
    requires forall k :: 0 <= k < |db| ==> SameAt(AddAllDb(previous, db).models, result, db[k].name)
    ensures AddAllDb(result, db[..i]) == AddAllDb(previous, db[..i])
  {
    if i > 0 {
      SameDbPrefix(previous, result, db, i - 1);
      var ix, m := AddAllDb(previous, db[..i - 1]), db[i - 1];
      assert Front(db[..i]) == db[..i - 1] && Last(db[..i]) == m;
      DbSettled(previous, db, i - 1);
      FreshName(previous, db, i - 1);
      AddAllDbAgrees(previous, db[..i]);
      assert SameAt(AddAllDb(previous, db).models, result, m.name);
    }
  }

  ghost predicate SameAt(a: map<string, Model>, b: map<string, Model>, n: string) {
    (n in a <==> n in b) && (n in a ==> a[n] == b[n])
  }

  /** A DB name is not registered before its turn. */
  lemma FreshName(previous: map<string, Model>, db: seq<Model>, i: nat)
    requires FiledByName(previous) && DistinctNames(db) && i < |db|
    ensures db[i].name !in AddAllDb(previous, db[..i]).models
  {
    if db[i].name in AddAllDb(previous, db[..i]).models {
      DbSources(previous, db[..i], db[i].name);
    }
  }

  /** Reloading twice from the same database is reloading once: although the second run falls back
      on the first run's result as its previous definitions, it ends with the same index. */
  lemma ReloadIsFixpoint(previous: map<string, Model>, yaml: seq<Model>, db: seq<Model>, known: set<string>)
    requires FiledByName(previous) && DistinctNames(db) && Names(db) <= known
    ensures Rebuilt(Rebuilt(previous, yaml, db, known).models, yaml, db, known) == Rebuilt(previous, yaml, db, known)
  {
    var result := Rebuilt(previous, yaml, db, known).models;
    forall k | 0 <= k < |db| ensures SameAt(AddAllDb(previous, db).models, result, db[k].name) {
      assert db[k].name in Names(db);
      YamlSettled(AddAllDb(previous, db), known, yaml, db[k].name);
    }
    SameDbPrefix(previous, result, db, |db|);
    assert db[..|db|] == db;
  }

  // ----- the sorted list ---------------------------------------------------------------------------

  ghost predicate Ascending(ms: seq<Model>) {
    forall i, j :: 0 <= i < j < |ms| ==> StrLess(ms[i].name, ms[j].name)
  }

  /** The list lists the registered models, each once, by name. */
  ghost predicate Lists(ms: seq<Model>, models: map<string, Model>) {
    && Ascending(ms)
    && (forall m :: m in ms ==> m.name in models && models[m.name] == m)
    && (forall n :: n in models ==> models[n] in ms)
  }

  lemma {:induction false} AscendingUnique(a: seq<Model>, b: seq<Model>)
    requires Ascending(a) && Ascending(b)
    requires forall m :: m in a <==> m in b
    ensures a == b
  {
    HeadIn(b);
    if a != [] {
      assert Last(a) in b && Last(b) in a;
      StrOrder(Last(a).name, Last(b).name);
      LastOnlyLast(a, Last(b));
      LastOnlyLast(b, Last(a));
      FrontElements(a);
      FrontElements(b);
      AscendingUnique(Front(a), Front(b));
    }
  }

  lemma FrontElements(a: seq<Model>)
    requires a != [] && Ascending(a)
    ensures Ascending(Front(a)) && a == Front(a) + [Last(a)]
    ensures forall m :: m in Front(a) <==> m in a && m != Last(a)
  {
    LastOnlyLast(a, Last(a));
    assert a == Front(a) + [Last(a)];
  }

  lemma HeadIn(b: seq<Model>)
    ensures b != [] ==> b[0] in b
  {
  }

  /** In an ascending list every element but the last comes strictly before it. */
  lemma LastOnlyLast(a: seq<Model>, m: Model)
    requires a != [] && Ascending(a) && m in a
    ensures m == Last(a) || StrLess(m.name, Last(a).name)
    ensures Last(a) !in Front(a)
  {
    StrOrder(Last(a).name, Last(a).name);
  }

  /** The sorted list is a function of the registered models. */
  lemma ListUnique(a: seq<Model>, b: seq<Model>, models: map<string, Model>)
    requires Lists(a, models) && Lists(b, models)
    ensures a == b
  {
    AscendingUnique(a, b);
  }

  /** The list after a second reload is the list after the first. */
  lemma SecondReloadListsTheSame(
    previous: map<string, Model>, yaml: seq<Model>, db: seq<Model>, known: set<string>,
    first: seq<Model>, second: seq<Model>)
    requires FiledByName(previous) && DistinctNames(db) && Names(db) <= known
    requires var once := Rebuilt(previous, yaml, db, known).models;
             Lists(first, once) && Lists(second, Rebuilt(once, yaml, db, known).models)
    ensures first == second
  {
    ReloadIsFixpoint(previous, yaml, db, known);
    ListUnique(first, second, Rebuilt(previous, yaml, db, known).models);
  }

  function InsertSorted(ms: seq<Model>, m: Model): seq<Model> {
    if ms == [] || StrLess(Last(ms).name, m.name) then ms + [m]
    else InsertSorted(Front(ms), m) + [Last(ms)]
  }

  lemma {:induction false} InsertSortedAscends(ms: seq<Model>, m: Model)
    requires Ascending(ms) && forall x :: x in ms ==> x.name != m.name
    ensures Ascending(InsertSorted(ms, m))
    ensures forall x :: x in InsertSorted(ms, m) <==> x == m || x in ms
  {
    if ms != [] {
      var last := Last(ms);
      assert ms == Front(ms) + [last];
      if StrLess(last.name, m.name) {
        forall i | 0 <= i < |ms| ensures StrLess(ms[i].name, m.name) {
          if i < |ms| - 1 { StrLessTransitive(ms[i].name, last.name, m.name); }
        }
      } else {
        InsertSortedAscends(Front(ms), m);
        StrOrder(last.name, m.name);
        assert forall x :: x in InsertSorted(Front(ms), m) ==> StrLess(x.name, last.name);
      }
    }
  }

  // ----- lookup ------------------------------------------------------------------------------------

  function Resolve(ix: Index, name: string): Option<Model> {
    if name in ix.models then Some(ix.models[name])
    else if name in ix.aliases && ix.aliases[name] in ix.models then Some(ix.models[ix.aliases[name]])
    else None
  }

  /** The obvious reference: scan the list for the name, then for an alias. */
  function Scan(ms: seq<Model>, name: string): Option<Model> {
    var byName := FindName(ms, name);
    if byName.Some? then byName else FindAlias(ms, name)
  }

  function FindName(ms: seq<Model>, name: string): (r: Option<Model>)
    ensures r.Some? ==> r.value in ms && r.value.name == name
    ensures r.None? ==> forall m :: m in ms ==> m.name != name
  {
    if ms == [] then None
    else if ms[0].name == name then Some(ms[0])
    else
      assert ms == [ms[0]] + ms[1..];
      FindName(ms[1..], name)
  }

  function FindAlias(ms: seq<Model>, alias: string): (r: Option<Model>)
    ensures r.Some? ==> r.value in ms && alias in r.value.aliases
    ensures r.None? ==> forall m :: m in ms ==> alias !in m.aliases
  {
    if ms == [] then None
    else if alias in ms[0].aliases then Some(ms[0])
    else
      assert ms == [ms[0]] + ms[1..];
      FindAlias(ms[1..], alias)
  }

  /** The indexed lookup is the linear scan. */
  lemma ResolveIsScan(ix: Index, ms: seq<Model>, name: string)
    requires Agrees(ix) && Lists(ms, ix.models)
    ensures Resolve(ix, name) == Scan(ms, name)
  {
    if name in ix.models {
      assert ix.models[name] in ms;
    } else {
      assert AliasOk(ix, name);
      if name in ix.aliases { assert ix.models[ix.aliases[name]] in ms; }
      forall x | x in ms && name in x.aliases ensures Owns(ix, x.name, name) { }
    }
  }

  // ----- adding in place ---------------------------------------------------------------------------

  function OldAliases(ix: Index, name: string): set<string> {
    if name in ix.models then Elements(ix.models[name].aliases) else {}
  }

  /** The number of aliases `add_model` writes before it meets a taken one. */
  function WrittenBefore(ix: Index, m: Model, i: nat): (k: nat)
    requires i <= |m.aliases|
    ensures i <= k <= |m.aliases|
    ensures forall j :: i <= j < k ==> !AliasTaken(ix, m.name, m.aliases[j])
    ensures k < |m.aliases| ==> AliasTaken(ix, m.name, m.aliases[k])
    decreases |m.aliases| - i
  {
    if i == |m.aliases| || AliasTaken(ix, m.name, m.aliases[i]) then i else WrittenBefore(ix, m, i + 1)
  }

  /** The index once the previous aliases of the model's name are dropped. */
  function Dropped(ix: Index, name: string): Index {
    Index(ix.models, ix.aliases - OldAliases(ix, name))
  }

  /** `add_model`: the index afterwards, and whether it returned rather than raised. */
  function Put(ix: Index, m: Model): (Index, bool) {
    var start := Dropped(ix, m.name);
    var k := WrittenBefore(start, m, 0);
    var aliases := WithAliases(start.aliases, m.aliases[..k], m.name);
    if k == |m.aliases| then (Index(ix.models[m.name := m], aliases), true)
    else (Index(ix.models, aliases), false)
  }

  /** In an agreeing index the aliases dropped are those filed under the name. */
  lemma OldAliasesOwned(ix: Index, name: string, a: string)
    requires Agrees(ix)
    ensures a in OldAliases(ix, name) <==> a in ix.aliases && ix.aliases[a] == name
  {
    assert AliasOk(ix, a);
    assert a in OldAliases(ix, name) <==> Owns(ix, name, a);
  }

  /** What the alias map of `Put` holds, alias by alias. */
  lemma PutAliases(ix: Index, m: Model, a: string)
    requires Agrees(ix)
    ensures var written := m.aliases[..WrittenBefore(Dropped(ix, m.name), m, 0)];
            var after := Put(ix, m).0.aliases;
            && (a in after <==> a in written || (a in ix.aliases && a !in OldAliases(ix, m.name)))
            && (a in written ==> after[a] == m.name && !AliasTaken(Dropped(ix, m.name), m.name, a))
            && (a in after && a !in written ==> after[a] == ix.aliases[a] && ix.aliases[a] != m.name)
  {
    var start := Dropped(ix, m.name);
    OldAliasesOwned(ix, m.name, a);
    WithAliasesLookup(start.aliases, m.aliases[..WrittenBefore(start, m, 0)], m.name, a);
  }

  lemma PutAgreesWhenFree(ix: Index, m: Model)
    requires Agrees(ix) && Put(ix, m).1
    requires m.name in ix.aliases ==> ix.aliases[m.name] == m.name
    ensures Agrees(Put(ix, m).0)
  {
    var after := Put(ix, m).0;
    assert m.aliases[..WrittenBefore(Dropped(ix, m.name), m, 0)] == m.aliases;
    forall a ensures AliasOk(after, a) {
      assert AliasOk(ix, a);
      PutAliases(ix, m, a);
      OldAliasesOwned(ix, m.name, a);
      forall n | Owns(after, n, a) ensures n == m.name || Owns(ix, n, a) { }
    }
  }

  /** When `add_model` returns, the index invariant survives exactly if the new name is not somebody
      else's alias: the one collision it does not look for. */
  lemma PutAgreesIff(ix: Index, m: Model)
    requires Agrees(ix) && Put(ix, m).1
    ensures Agrees(Put(ix, m).0) <==> (m.name in ix.aliases ==> ix.aliases[m.name] == m.name)
  {
    if m.name in ix.aliases && ix.aliases[m.name] != m.name {
      PutAliases(ix, m, m.name);
      assert AliasOk(ix, m.name) && !AliasOk(Put(ix, m).0, m.name);
    } else {
      PutAgreesWhenFree(ix, m);
    }
  }

  /** Two agreeing indexes of the same models have the same aliases. */
  lemma AgreementDeterminesAliases(a: Index, b: Index)
    requires Agrees(a) && Agrees(b) && a.models == b.models
    ensures a == b
  {
    forall k ensures (k in a.aliases <==> k in b.aliases) && (k in a.aliases ==> a.aliases[k] == b.aliases[k]) {
      assert AliasOk(a, k) && AliasOk(b, k);
      assert forall n :: Owns(a, n, k) <==> Owns(b, n, k);
    }
    assert a.aliases == b.aliases;
  }

  /** When `add_model` raises, it leaves the index as it was exactly if the aliases it had already
      rewritten are the ones the old definition had; otherwise the invariant is lost. */
  lemma PutAtomicIff(ix: Index, m: Model)
    requires Agrees(ix) && !Put(ix, m).1
    ensures var k := WrittenBefore(Dropped(ix, m.name), m, 0);
            && (Put(ix, m).0 == ix <==> Elements(m.aliases[..k]) == OldAliases(ix, m.name))
            && (Agrees(Put(ix, m).0) <==> Put(ix, m).0 == ix)
  {
    var after := Put(ix, m).0;
    if Agrees(after) {
      AgreementDeterminesAliases(after, ix);
    }
    if after == ix {
      UnchangedRewritesOld(ix, m);
    }
    if Elements(m.aliases[..WrittenBefore(Dropped(ix, m.name), m, 0)]) == OldAliases(ix, m.name) {
      RewritingOldChangesNothing(ix, m);
    }
  }

  lemma UnchangedRewritesOld(ix: Index, m: Model)
    requires Agrees(ix) && Put(ix, m).0.aliases == ix.aliases
    ensures Elements(m.aliases[..WrittenBefore(Dropped(ix, m.name), m, 0)]) == OldAliases(ix, m.name)
  {
    var written := m.aliases[..WrittenBefore(Dropped(ix, m.name), m, 0)];
    forall a ensures a in written <==> a in OldAliases(ix, m.name) {
      PutAliases(ix, m, a);
      OldAliasesOwned(ix, m.name, a);
    }
    assert Elements(written) == OldAliases(ix, m.name);
  }

  lemma RewritingOldChangesNothing(ix: Index, m: Model)
    requires Agrees(ix) && !Put(ix, m).1
    requires Elements(m.aliases[..WrittenBefore(Dropped(ix, m.name), m, 0)]) == OldAliases(ix, m.name)
    ensures Put(ix, m).0 == ix
  {
    var written := m.aliases[..WrittenBefore(Dropped(ix, m.name), m, 0)];
    var after := Put(ix, m).0.aliases;
    forall a ensures (a in after <==> a in ix.aliases) && (a in after ==> after[a] == ix.aliases[a]) {
      SameElements(written, a);
      PutAliases(ix, m, a);
      assert AliasOk(ix, a);
      assert a in written ==> Owns(ix, m.name, a);
    }
    assert after == ix.aliases;
  }

  lemma SameElements<T>(s: seq<T>, x: T)
    ensures x in s <==> x in Elements(s)
  {
  }

  /** Dropping the old aliases of a name frees nothing for that name. */
  lemma DroppingFreesNothing(ix: Index, m: Model, i: nat)
    requires Agrees(ix) && i <= |m.aliases|
    ensures WrittenBefore(Dropped(ix, m.name), m, i) == WrittenBefore(ix, m, i)
    decreases |m.aliases| - i
  {
    if i < |m.aliases| {
      OldAliasesOwned(ix, m.name, m.aliases[i]);
      DroppingFreesNothing(ix, m, i + 1);
    }
  }

  /** What a caller can check before `add_model`: if every alias is free, the name must not be another
      model's alias; otherwise the aliases before the first taken one must be exactly those the model
      already has. */
  predicate AddKeeps(ix: Index, m: Model) {
    var k := WrittenBefore(ix, m, 0);
    if k == |m.aliases| then m.name in ix.aliases ==> ix.aliases[m.name] == m.name
    else Elements(m.aliases[..k]) == OldAliases(ix, m.name)
  }

  /** The model lists an alias that is the other's name or alias. */
  predicate TakesFrom(other: Model, m: Model) {
    exists a :: a in m.aliases && (a == other.name || a in other.aliases)
  }

  /** Some other registered model has this name or alias. */
  ghost predicate TakenByOther(ix: Index, name: string, a: string) {
    exists n :: n in ix.models && n != name && (a == n || a in ix.models[n].aliases)
  }

  lemma TakenIff(ix: Index, name: string, a: string)
    requires Agrees(ix)
    ensures AliasTaken(ix, name, a) <==> TakenByOther(ix, name, a)
  {
    assert AliasOk(ix, a);
    if a in ix.aliases && ix.aliases[a] != name {
      assert Owns(ix, ix.aliases[a], a);
    }
    if n :| n in ix.models && n != name && a in ix.models[n].aliases {
      assert Owns(ix, n, a);
    }
  }

  lemma NoneTakenIff(ix: Index, m: Model)
    requires Agrees(ix)
    ensures (forall a :: a in m.aliases ==> !AliasTaken(ix, m.name, a))
       <==> (forall n :: n in ix.models && n != m.name ==> !TakesFrom(ix.models[n], m))
  {
    forall a ensures AliasTaken(ix, m.name, a) <==> TakenByOther(ix, m.name, a) { TakenIff(ix, m.name, a); }
    if a :| a in m.aliases && AliasTaken(ix, m.name, a) {
      assert TakenByOther(ix, m.name, a);
      var n :| n in ix.models && n != m.name && (a == n || a in ix.models[n].aliases);
      assert TakesFrom(ix.models[n], m);
    }
    if n :| n in ix.models && n != m.name && TakesFrom(ix.models[n], m) {
      var a :| a in m.aliases && (a == n || a in ix.models[n].aliases);
      assert TakenByOther(ix, m.name, a);
    }
  }

  /** `add_model` returns exactly if no alias is taken, and keeps the index consistent exactly under the
      condition above; a call that raises and keeps it consistent has changed nothing. */
  lemma AddModelKeepsIff(ix: Index, m: Model)
    requires Agrees(ix)
    ensures Put(ix, m).1 <==> forall n :: n in ix.models && n != m.name ==> !TakesFrom(ix.models[n], m)
    ensures Agrees(Put(ix, m).0) <==> AddKeeps(ix, m)
    ensures !Put(ix, m).1 && AddKeeps(ix, m) ==> Put(ix, m).0 == ix
  {
    DroppingFreesNothing(ix, m, 0);
    NoneTakenIff(ix, m);
    if Put(ix, m).1 {
      PutAgreesIff(ix, m);
    } else {
      PutAtomicIff(ix, m);
    }
  }

  /** What a name leads to after `add_model` returned and kept the index consistent: the model's name and
      its aliases lead to the new definition, aliases only the old one had lead nowhere, and every other name
      leads where it did. */
  lemma AddedModelResolves(ix: Index, m: Model, name: string)
    requires Agrees(ix) && Put(ix, m).1 && AddKeeps(ix, m)
    ensures Resolve(Put(ix, m).0, name) ==
      if name == m.name || name in m.aliases then Some(m)
      else if m.name in ix.models && name in ix.models[m.name].aliases then None
      else Resolve(ix, name)
  {
    AddModelKeepsIff(ix, m);
    PutAliases(ix, m, name);
    OldAliasesOwned(ix, m.name, name);
    var written := m.aliases[..WrittenBefore(Dropped(ix, m.name), m, 0)];
    assert written == m.aliases;
    assert AliasOk(ix, name);
    assert name in OldAliases(ix, m.name) <==> Owns(ix, m.name, name);
    if name in m.aliases {
      assert !AliasTaken(Dropped(ix, m.name), m.name, name);
    }
  }

  /** A call that returns and breaks the index: model `a` has the alias `x`, and a model `x` is added. */
  lemma ReturnCanShadowAlias()
    ensures exists ix, m :: Agrees(ix) && Put(ix, m).1 && !Agrees(Put(ix, m).0)
  {
    var a := Model("a", "", ["x"], First, 0, "", 0.0, []);
    var ix := Index(map["a" := a], map["x" := "a"]);
    var m := Model("x", "", [], First, 0, "", 0.0, []);
    assert Agrees(ix);
    assert WrittenBefore(ix, m, 0) == 0;
    AddModelKeepsIff(ix, m);
    assert Put(ix, m).1 && !AddKeeps(ix, m);
  }

  /** A raise that loses aliases: replacing `a` (alias `x`) by a definition that wants `b`'s name. */
  lemma RaiseCanLoseAliases()
    ensures exists ix, m :: Agrees(ix) && !Put(ix, m).1 && !Agrees(Put(ix, m).0)
  {
    var a := Model("a", "", ["x"], First, 0, "", 0.0, []);
    var b := Model("b", "", [], First, 0, "", 0.0, []);
    var ix := Index(map["a" := a, "b" := b], map["x" := "a"]);
    var m := a.(aliases := ["b"]);
    assert Agrees(ix);
    assert a.aliases[0] == "x";
    assert OldAliases(ix, "a") == {"x"};
    assert AliasTaken(Dropped(ix, "a"), "a", m.aliases[0]);
    assert WrittenBefore(Dropped(ix, "a"), m, 0) == 0;
    PutAtomicIff(ix, m);
    assert "x" !in Elements(m.aliases[..0]);
  }

  // ----- the registry ------------------------------------------------------------------------------

  class Registry {
    var models: map<string, Model>
    var aliases: map<string, string>
    var sorted: seq<Model>
    /** The YAML models in configuration order, one per name. */
    var yaml: seq<Model>

    ghost predicate Valid()
      reads this
    {
      FiledByName(models) && Lists(sorted, models)
    }

    function Ix(): Index
      reads this
    {
      Index(models, aliases)
    }

    constructor (yaml: seq<Model>)
      ensures Valid() && Ix() == NO_MODELS && this.yaml == yaml
    {
      models, aliases, sorted := map[], map[], [];
      this.yaml := yaml;
    }

    method RebuildSorted()
      modifies this`sorted
      requires FiledByName(models)
      ensures Valid()
    {
      sorted := [];
      var left := models.Keys;
      while left != {}
        invariant left <= models.Keys
        invariant Ascending(sorted)
        invariant forall m :: m in sorted <==> m.name in models && m.name !in left && models[m.name] == m
        decreases left
      {
        var n :| n in left;
        InsertSortedAscends(sorted, models[n]);
        sorted := InsertSorted(sorted, models[n]);
        left := left - {n};
      }
    }

    /** The closure of `replace_db_models`: check everything, then write. */
    static method TryAddModel(ix: Index, m: Model) returns (r: Index, refusal: Refusal)
      ensures r == TryAdd(ix, m)
      ensures refusal == Added <==> CanAdd(ix, m)
    {
      if m.name in ix.models {
        return ix, DuplicateName;
      }
      if m.name in ix.aliases {
        return ix, NameIsAlias;
      }
      for i := 0 to |m.aliases|
        invariant forall j :: 0 <= j < i ==> !AliasTaken(ix, m.name, m.aliases[j])
      {
        var alias := m.aliases[i];
        assert AliasTaken(ix, m.name, alias) ==> !CanAdd(ix, m);
        if alias in ix.aliases && ix.aliases[alias] != m.name {
          return ix, DuplicateAlias(alias);
        }
        if alias in ix.models && alias != m.name {
          return ix, AliasIsName(alias);
        }
      }
      var owners := ix.aliases;
      for i := 0 to |m.aliases|
        invariant owners == WithAliases(ix.aliases, m.aliases[..i], m.name)
      {
        owners := owners[m.aliases[i] := m.name];
        assert Front(m.aliases[..i + 1]) == m.aliases[..i];
      }
      assert m.aliases[..|m.aliases|] == m.aliases;
      return Index(ix.models[m.name := m], owners), Added;
    }

    method ReplaceDbModels(db: seq<Model>, dbNames: set<string>)
      requires Valid()
      modifies this`models, this`aliases, this`sorted
      ensures Valid() && Agrees(Ix())
      ensures Ix() == Rebuilt(old(models), yaml, db, dbNames)
    {
      var ix := NO_MODELS;
      var previous := models;
      for i := 0 to |db|
        invariant ix == AddAllDb(previous, db[..i])
      {
        var m := db[i];
        var refusal;
        ix, refusal := TryAddModel(ix, m);
        if refusal != Added && m.name in previous {
          ix, refusal := TryAddModel(ix, previous[m.name]);
        }
        assert Front(db[..i + 1]) == db[..i];
      }
      assert db[..|db|] == db;
      for i := 0 to |yaml|
        invariant ix == AddAllYaml(AddAllDb(previous, db), dbNames, yaml[..i])
      {
        var m := yaml[i];
        if m.name !in dbNames && m.name !in ix.models {
          var refusal;
          ix, refusal := TryAddModel(ix, m);
        }
        assert Front(yaml[..i + 1]) == yaml[..i];
      }
      assert yaml[..|yaml|] == yaml;
      RebuildAgrees(previous, yaml, db, dbNames);
      models, aliases := ix.models, ix.aliases;
      RebuildSorted();
    }

    /** `resolve`, with `None` for its `KeyError`s. In a consistent index it is the linear scan; in one a
        raising `add_model` left behind, an alias may also lead to a model that is not registered. */
    method Lookup(name: string) returns (m: Option<Model>)
      requires Valid()
      ensures Agrees(Ix()) ==> m == Scan(sorted, name)
      ensures m.Some? && m.value.name != name ==>
                FindName(sorted, name).None? && name in aliases && m.value.name == aliases[name]
      ensures m.Some? ==> m.value in sorted
      ensures m.None? ==> FindName(sorted, name).None? && (name in aliases ==> FindName(sorted, aliases[name]).None?)
    {
      if Agrees(Ix()) {
        ResolveIsScan(Ix(), sorted, name);
      }
      if name in models {
        return Some(models[name]);
      }
      if name in aliases && aliases[name] in models {
        return Some(models[aliases[name]]);
      }
      return None;
    }

    method DropAliases(name: string)
      modifies this`aliases
      ensures Ix() == Dropped(old(Ix()), name)
    {
      if name in models {
        var was := models[name].aliases;
        for i := 0 to |was|
          invariant aliases == old(aliases) - Elements(was[..i])
        {
          aliases := aliases - {was[i]};
          assert Elements(was[..i + 1]) == Elements(was[..i]) + {was[i]};
        }
        assert was[..|was|] == was;
      }
      assert aliases == old(aliases) - OldAliases(old(Ix()), name);
    }

    method WriteAliases(m: Model) returns (ok: bool)
      modifies this`aliases
      ensures var k := WrittenBefore(old(Ix()), m, 0);
              && (ok <==> k == |m.aliases|)
              && aliases == WithAliases(old(aliases), m.aliases[..k], m.name)
    {
      for i := 0 to |m.aliases|
        invariant aliases == WithAliases(old(aliases), m.aliases[..i], m.name)
        invariant WrittenBefore(old(Ix()), m, 0) == WrittenBefore(old(Ix()), m, i)
      {
        var alias := m.aliases[i];
        WithAliasesLookup(old(aliases), m.aliases[..i], m.name, alias);
        if alias in aliases && aliases[alias] != m.name {
          return false;
        }
        if alias in models && alias != m.name {
          return false;
        }
        aliases := aliases[alias := m.name];
        assert Front(m.aliases[..i + 1]) == m.aliases[..i];
      }
      return true;
    }

    /** `add_model`, which edits the dicts in place and may raise half way. */
    method AddModel(m: Model) returns (ok: bool)
      requires Valid()
      modifies this`models, this`aliases, this`sorted
      ensures Valid() && (Ix(), ok) == Put(old(Ix()), m)
    {
      DropAliases(m.name);
      ok := WriteAliases(m);
      if ok {
        models := models[m.name := m];
        RebuildSorted();
      }
    }
  }
}
