/** The extension system: the module registry with its three tables and its
    instance cache, and the extension manager's lookups by type and name. */
module ModularArchitecture {
  import opened Values

  datatype ModuleType = Extractor | Analyzer | Visualizer | RuleModule | Loader

  /** `ModuleType.value`. */
  function TypeValue(t: ModuleType): string {
    match t
    case Extractor => "extractor"
    case Analyzer => "analyzer"
    case Visualizer => "visualizer"
    case RuleModule => "rule"
    case Loader => "loader"
  }

  datatype ModuleInfo = ModuleInfo(name: string, moduleType: ModuleType, version: string, description: string,
                                   author: string, dependencies: seq<string>, configSchema: Record)

  /** The abstract base class a module class derives from, which is what
      `isinstance` tests. */
  datatype BaseKind = CloudExtractorBase | SecurityAnalyzerBase | VisualizerBase | SecurityRuleBase | DataLoaderBase | NoBase

  /** The base class each lookup of the manager accepts. */
  function BaseFor(t: ModuleType): BaseKind {
    match t
    case Extractor => CloudExtractorBase
    case Analyzer => SecurityAnalyzerBase
    case Visualizer => VisualizerBase
    case RuleModule => SecurityRuleBase
    case Loader => DataLoaderBase
  }

  /** A module class: its name, its base, and whether its constructor
      raises. */
  datatype ModuleClass = ModuleClass(className: string, base: BaseKind, initRaises: bool)

  /** A module instance: an object, so that the cache's identity is
      observable. */
  class ModuleInstance {
    const cls: ModuleClass
    const config: Record

    constructor (cls: ModuleClass, config: Record)
      ensures this.cls == cls && this.config == config
    {
      this.cls := cls;
      this.config := config;
    }
  }

  /** `config or {}`. */
  function ConfigOrEmpty(config: Option<Record>): Record {
    if config.None? then map[] else config.value
  }

  // ---------------------------------------------------------------------
  // The insertion-ordered info table
  // ---------------------------------------------------------------------

  /** The keys of the info table. */
  function NameSet(infos: seq<ModuleInfo>): set<string> {
    if infos == [] then {} else {infos[0].name} + NameSet(infos[1..])
  }

  /** No key occurs twice. */
  predicate UniqueNames(infos: seq<ModuleInfo>) {
    infos == [] || (infos[0].name !in NameSet(infos[1..]) && UniqueNames(infos[1..]))
  }

  lemma {:induction false} InNameSet(infos: seq<ModuleInfo>, x: ModuleInfo)
    requires x in infos
    ensures x.name in NameSet(infos)
  {
    if infos[0] != x {
      InNameSet(infos[1..], x);
    }
  }

  /** `module_info[info.name] = info`: an existing key keeps its place, a
      new one goes last. */
  function Put(infos: seq<ModuleInfo>, info: ModuleInfo): seq<ModuleInfo> {
    if infos == [] then [info]
    else if infos[0].name == info.name then [info] + infos[1..]
    else [infos[0]] + Put(infos[1..], info)
  }

  /** `del module_info[name]`. */
  function Remove(infos: seq<ModuleInfo>, name: string): seq<ModuleInfo> {
    if infos == [] then []
    else if infos[0].name == name then infos[1..]
    else [infos[0]] + Remove(infos[1..], name)
  }

  /** `[info for info in module_info.values() if info.module_type == t]`,
      or all of them. */
  function OfType(infos: seq<ModuleInfo>, t: Option<ModuleType>): seq<ModuleInfo> {
    if infos == [] then []
    else (if t.None? || infos[0].moduleType == t.value then [infos[0]] else []) + OfType(infos[1..], t)
  }

  /** Writing a key adds it to the keys and keeps them unique. */
  lemma {:induction false} PutKeys(infos: seq<ModuleInfo>, info: ModuleInfo)
    ensures NameSet(Put(infos, info)) == NameSet(infos) + {info.name}
    ensures UniqueNames(infos) ==> UniqueNames(Put(infos, info))
  {
    if infos != [] && infos[0].name != info.name {
      PutKeys(infos[1..], info);
    }
  }

  /** Writing a key that is present replaces its entry in place; a new key
      is appended. */
  lemma {:induction false} PutInPlace(infos: seq<ModuleInfo>, info: ModuleInfo)
    ensures UniqueNames(infos) && info.name in NameSet(infos) ==>
              |Put(infos, info)| == |infos| &&
              forall j :: 0 <= j < |infos| ==> Put(infos, info)[j] == if infos[j].name == info.name then info else infos[j]
    ensures info.name !in NameSet(infos) ==> Put(infos, info) == infos + [info]
  {
    if infos == [] {
    } else if infos[0].name == info.name {
      if UniqueNames(infos) {
        forall j | 1 <= j < |infos| ensures infos[j].name != info.name {
          InNameSet(infos[1..], infos[j]);
        }
      }
    } else {
      PutInPlace(infos[1..], info);
      var rest := Put(infos[1..], info);
      assert Put(infos, info) == [infos[0]] + rest;
      if UniqueNames(infos) && info.name in NameSet(infos) {
        assert info.name in NameSet(infos[1..]);
        assert |rest| == |infos| - 1;
        forall j | 1 <= j < |infos|
          ensures Put(infos, info)[j] == if infos[j].name == info.name then info else infos[j]
        {
          assert Put(infos, info)[j] == rest[j - 1] && infos[j] == infos[1..][j - 1];
        }
      } else {
        assert infos == [infos[0]] + infos[1..];
      }
    }
  }

  /** Removing a key drops exactly its entry. */
  lemma {:induction false} RemoveMeaning(infos: seq<ModuleInfo>, name: string)
    requires UniqueNames(infos)
    ensures UniqueNames(Remove(infos, name))
    ensures NameSet(Remove(infos, name)) == NameSet(infos) - {name}
    ensures forall x :: x in Remove(infos, name) <==> x in infos && x.name != name
  {
    if infos != [] {
      RemoveMeaning(infos[1..], name);
      if infos[0].name == name {
        forall x | x in infos[1..] ensures x.name != name {
          InNameSet(infos[1..], x);
        }
      }
    }
  }

  /** Filtering by type keeps exactly the infos of that type, in order;
      without a type it keeps everything. */
  lemma {:induction false} OfTypeMeaning(infos: seq<ModuleInfo>, t: ModuleType)
    ensures forall x :: x in OfType(infos, Some(t)) <==> x in infos && x.moduleType == t
    ensures OfType(infos, None) == infos
  {
    if infos != [] {
      OfTypeMeaning(infos[1..], t);
      assert forall x :: x in infos <==> x == infos[0] || x in infos[1..];
      if infos[0].moduleType == t {
        assert OfType(infos, Some(t)) == [infos[0]] + OfType(infos[1..], Some(t));
      } else {
        assert OfType(infos, Some(t)) == OfType(infos[1..], Some(t));
      }
    }
  }

  /** Filtering by type keeps the keys unique. */
  lemma {:induction false} OfTypeKeys(infos: seq<ModuleInfo>, t: ModuleType)
    ensures NameSet(OfType(infos, Some(t))) <= NameSet(infos)
    ensures UniqueNames(infos) ==> UniqueNames(OfType(infos, Some(t)))
  {
    if infos != [] {
      OfTypeKeys(infos[1..], t);
      var rest := OfType(infos[1..], Some(t));
      if infos[0].moduleType == t {
        assert OfType(infos, Some(t)) == [infos[0]] + rest;
        assert ([infos[0]] + rest)[1..] == rest;
      } else {
        assert OfType(infos, Some(t)) == rest;
      }
    }
  }

  /** The five per-type lists of `list_available_extensions` partition the
      info table. */
  lemma {:induction false} TypesPartition(infos: seq<ModuleInfo>)
    ensures |OfType(infos, Some(Extractor))| + |OfType(infos, Some(Analyzer))| + |OfType(infos, Some(Visualizer))|
            + |OfType(infos, Some(RuleModule))| + |OfType(infos, Some(Loader))| == |infos|
  {
    if infos != [] {
      TypesPartition(infos[1..]);
    }
  }

  /** `query.lower() in name.lower()`. */
  predicate NameMatches(name: string, query: string) {
    Contains(Lower(name), Lower(query))
  }

  lemma LowerIdempotent(s: string)
    ensures Lower(Lower(s)) == Lower(s)
  {
  }

  /** The match ignores the case of the query and of the name, and every
      name matches itself. */
  lemma MatchIgnoresCase(name: string, query: string)
    ensures NameMatches(name, query) == NameMatches(Lower(name), Lower(query))
    ensures NameMatches(name, name)
  {
    LowerIdempotent(name);
    LowerIdempotent(query);
    LowerMeaning(name);
    assert Lower(name)[..|Lower(name)|] == Lower(name);
  }

  // ---------------------------------------------------------------------
  // The registry
  // ---------------------------------------------------------------------

  class ModuleRegistry {
    var modules: map<string, ModuleClass>
    var infos: seq<ModuleInfo>
    var instances: map<string, ModuleInstance>

    /** `modules` and `module_info` have the same keys, each info is stored
        under its own name, and only registered names have instances. */
    ghost predicate Valid()
      reads this
    {
      && UniqueNames(infos)
      && modules.Keys == NameSet(infos)
      && instances.Keys <= modules.Keys
    }

    constructor ()
      ensures Valid() && modules == map[] && infos == [] && instances == map[]
    {
      modules := map[];
      infos := [];
      instances := map[];
    }

    /** `register_module`: class and info stored under the info's name,
        overwriting; the cached instance, if any, stays. */
    method RegisterModule(cls: ModuleClass, info: ModuleInfo) returns (ok: bool)
      requires Valid()
      modifies this
      ensures Valid()
      ensures ok
      ensures modules == old(modules)[info.name := cls]
      ensures infos == Put(old(infos), info)
      ensures instances == old(instances)
    {
      PutKeys(infos, info);
      modules := modules[info.name := cls];
      infos := Put(infos, info);
      return true;
    }

    /** `unregister_module`. */
    method UnregisterModule(name: string) returns (ok: bool)
      requires Valid()
      modifies this
      ensures Valid()
      ensures ok == (name in old(modules))
      ensures ok ==> modules == old(modules) - {name} && infos == Remove(old(infos), name) &&
                     instances == old(instances) - {name}
      ensures !ok ==> modules == old(modules) && infos == old(infos) && instances == old(instances)
    {
      if name !in modules {
        return false;
      }
      RemoveMeaning(infos, name);
      modules := modules - {name};
      infos := Remove(infos, name);
      if name in instances {
        instances := instances - {name};
      }
      return true;
    }

    /** `get_module`: None for an unknown name; the cached instance, if
        any, whatever the config; otherwise a new instance, cached, unless
        its constructor raises. */
    method GetModule(name: string, config: Option<Record>) returns (r: Option<ModuleInstance>)
      requires Valid()
      modifies this
      ensures Valid()
      ensures modules == old(modules) && infos == old(infos)
      ensures name !in old(modules) ==> r.None? && instances == old(instances)
      ensures name in old(instances) ==> r == Some(old(instances)[name]) && instances == old(instances)
      ensures name in old(modules) && name !in old(instances) && old(modules)[name].initRaises ==>
                r.None? && instances == old(instances)
      ensures name in old(modules) && name !in old(instances) && !old(modules)[name].initRaises ==>
                && r.Some? && fresh(r.value)
                && r.value.cls == modules[name] && r.value.config == ConfigOrEmpty(config)
                && instances == old(instances)[name := r.value]
      ensures instances.Keys == old(instances).Keys +
                (if name in old(modules) && name !in old(instances) && !old(modules)[name].initRaises then {name} else {})
    {
      if name !in modules {
        return None;
      }
      if name in instances {
        return Some(instances[name]);
      }
      var cls := modules[name];
      if cls.initRaises {
        return None;
      }
      var instance := new ModuleInstance(cls, ConfigOrEmpty(config));
      instances := instances[name := instance];
      return Some(instance);
    }

    /** `list_modules`. */
    function ListModules(t: Option<ModuleType>): (r: seq<ModuleInfo>)
      reads this
      ensures t.None? ==> r == infos
      ensures t.Some? ==> forall x :: x in r <==> x in infos && x.moduleType == t.value
    {
      OfTypeMeaning(infos, if t.None? then Extractor else t.value);
      OfType(infos, t)
    }

    /** `get_module_info`. */
    function GetModuleInfo(name: string): (r: Option<ModuleInfo>)
      reads this
      ensures r.Some? ==> r.value in infos && r.value.name == name
      ensures r.None? ==> name !in NameSet(infos)
    {
      InfoNamed(infos, name)
    }
  }

  function InfoNamed(infos: seq<ModuleInfo>, name: string): (r: Option<ModuleInfo>)
    ensures r.Some? ==> r.value in infos && r.value.name == name
    ensures r.None? ==> name !in NameSet(infos)
  {
    if infos == [] then None
    else if infos[0].name == name then Some(infos[0])
    else InfoNamed(infos[1..], name)
  }

  /** A module lost by overwriting: registering a new class under a name
      whose instance is cached leaves the old instance, of the old class, in
      the cache, and `get_module` keeps returning it. */
  method ReRegisterKeepsCachedInstance(registry: ModuleRegistry, oldClass: ModuleClass, newClass: ModuleClass,
                                         info: ModuleInfo)
      returns (first: Option<ModuleInstance>, second: Option<ModuleInstance>)
    requires registry.Valid() && registry.modules == map[] && !oldClass.initRaises
    modifies registry
    ensures first.Some? && second == first && second.value.cls == oldClass
    ensures info.name in registry.modules && registry.modules[info.name] == newClass
  {
    var ok := registry.RegisterModule(oldClass, info);
    first := registry.GetModule(info.name, None);
    ok := registry.RegisterModule(newClass, info);
    second := registry.GetModule(info.name, Some(map["ignored" := Bool(true)]));
  }

  // ---------------------------------------------------------------------
  // The extension manager
  // ---------------------------------------------------------------------

  /** Whether `get_module` on `name` would yield an instance of `want`. */
  predicate Acceptable(modules: map<string, ModuleClass>, instances: map<string, ModuleInstance>, name: string, want: BaseKind) {
    if name in instances then instances[name].cls.base == want
    else name in modules && !modules[name].initRaises && modules[name].base == want
  }

  /** The name of the first candidate whose name matches the query and
      whose instance passes the `isinstance` test. */
  function FirstFound(cands: seq<ModuleInfo>, query: string, modules: map<string, ModuleClass>,
                      instances: map<string, ModuleInstance>, want: BaseKind): Option<string>
  {
    if cands == [] then None
    else if NameMatches(cands[0].name, query) && Acceptable(modules, instances, cands[0].name, want) then Some(cands[0].name)
    else FirstFound(cands[1..], query, modules, instances, want)
  }

  /** The name found is a candidate's that matches and is acceptable; none
      is found exactly when no candidate is both. */
  lemma {:induction false} FirstFoundMeaning(cands: seq<ModuleInfo>, query: string, modules: map<string, ModuleClass>,
                                             instances: map<string, ModuleInstance>, want: BaseKind)
    ensures var r := FirstFound(cands, query, modules, instances, want);
            && (r.Some? ==> r.value in NameSet(cands))
            && (r.Some? ==> NameMatches(r.value, query) && Acceptable(modules, instances, r.value, want))
            && (r.None? <==> forall x :: x in cands ==> !(NameMatches(x.name, query) && Acceptable(modules, instances, x.name, want)))
  {
    if cands != [] {
      FirstFoundMeaning(cands[1..], query, modules, instances, want);
      assert forall x :: x in cands ==> x == cands[0] || x in cands[1..];
    }
  }

  /** The names a lookup newly caches: walking the candidates in order,
      each name that matches the query and has no instance yet is
      instantiated, unless its constructor raises, until the first
      acceptable one. */
  function Cached(cands: seq<ModuleInfo>, query: string, modules: map<string, ModuleClass>,
                  instances: map<string, ModuleInstance>, want: BaseKind): set<string>
  {
    if cands == [] then {}
    else
      var n := cands[0].name;
      if NameMatches(n, query) && Acceptable(modules, instances, n, want) then Added(n, query, modules, instances)
      else Added(n, query, modules, instances) + Cached(cands[1..], query, modules, instances, want)
  }

  /** What visiting one candidate adds to the cache: its name, when it
      matches, is registered, has no instance yet and constructs. */
  function Added(n: string, query: string, modules: map<string, ModuleClass>,
                 instances: map<string, ModuleInstance>): set<string> {
    if NameMatches(n, query) && n in modules && n !in instances && !modules[n].initRaises then {n} else {}
  }

  /** The newly cached names are candidates that match the query, are
      registered, had no instance and construct; the acceptable one found
      is among them unless it was cached before; and when none is
      acceptable, every such candidate is cached. */
  lemma {:induction false} CachedMeaning(cands: seq<ModuleInfo>, query: string, modules: map<string, ModuleClass>,
                                         instances: map<string, ModuleInstance>, want: BaseKind)
    ensures var r := Cached(cands, query, modules, instances, want);
            && r <= NameSet(cands)
            && (forall n :: n in r ==> && NameMatches(n, query) && n in modules && n !in instances
                                       && !modules[n].initRaises)
    ensures var found := FirstFound(cands, query, modules, instances, want);
            found.Some? && found.value !in instances ==> found.value in Cached(cands, query, modules, instances, want)
    ensures FirstFound(cands, query, modules, instances, want).None? ==>
              forall x :: (x in cands && NameMatches(x.name, query) && x.name in modules && x.name !in instances
                           && !modules[x.name].initRaises) ==> x.name in Cached(cands, query, modules, instances, want)
  {
    FirstFoundMeaning(cands, query, modules, instances, want);
    if cands != [] {
      CachedMeaning(cands[1..], query, modules, instances, want);
      FirstFoundMeaning(cands[1..], query, modules, instances, want);
      assert forall x :: x in cands ==> x == cands[0] || x in cands[1..];
    }
  }

  /** The state of the lookup loop: `rest` is what remains of the
      candidates, `cached` the names cached so far, and what the whole walk
      caches and finds is what the rest still will. */
  ghost predicate Walk(cands: seq<ModuleInfo>, rest: seq<ModuleInfo>, cached: set<string>, query: string,
                       modules: map<string, ModuleClass>, instances: map<string, ModuleInstance>, want: BaseKind) {
    && UniqueNames(rest) && NameSet(rest) <= modules.Keys
    && cached !! instances.Keys && cached !! NameSet(rest)
    && Cached(cands, query, modules, instances, want) == cached + Cached(rest, query, modules, instances, want)
    && FirstFound(cands, query, modules, instances, want) == FirstFound(rest, query, modules, instances, want)
  }

  /** A candidate that does not end the walk. */
  lemma WalkNext(cands: seq<ModuleInfo>, rest: seq<ModuleInfo>, cached: set<string>, query: string,
                 modules: map<string, ModuleClass>, instances: map<string, ModuleInstance>, want: BaseKind)
    requires Walk(cands, rest, cached, query, modules, instances, want) && rest != []
    requires !(NameMatches(rest[0].name, query) && Acceptable(modules, instances, rest[0].name, want))
    ensures Walk(cands, rest[1..], cached + Added(rest[0].name, query, modules, instances), query, modules,
                 instances, want)
  {
    var added := Added(rest[0].name, query, modules, instances);
    var tail := Cached(rest[1..], query, modules, instances, want);
    assert Cached(rest, query, modules, instances, want) == added + tail;
    assert cached + (added + tail) == (cached + added) + tail;
  }

  /** The candidate that ends the walk. */
  lemma WalkStop(cands: seq<ModuleInfo>, rest: seq<ModuleInfo>, cached: set<string>, query: string,
                 modules: map<string, ModuleClass>, instances: map<string, ModuleInstance>, want: BaseKind)
    requires Walk(cands, rest, cached, query, modules, instances, want) && rest != []
    requires NameMatches(rest[0].name, query) && Acceptable(modules, instances, rest[0].name, want)
    ensures Cached(cands, query, modules, instances, want) == cached + Added(rest[0].name, query, modules, instances)
    ensures FirstFound(cands, query, modules, instances, want) == Some(rest[0].name)
  {
  }

  lemma UnionAssoc<T>(a: set<T>, b: set<T>, c: set<T>)
    ensures a + (b + c) == (a + b) + c
  {
  }

  class ExtensionManager {
    const registry: ModuleRegistry

    constructor ()
      ensures fresh(registry) && registry.Valid()
      ensures registry.modules == map[] && registry.infos == [] && registry.instances == map[]
    {
      registry := new ModuleRegistry();
    }

    /** `get_extractor`, `get_analyzer`, `get_visualizer` and `get_rule`,
        for types Extractor, Analyzer, Visualizer and RuleModule: the
        candidates of the type in registration order, the first whose name
        contains the query ignoring case and whose instance has the base
        class. Each matching name's instance is obtained on the way, so the
        cache may grow. */
    method GetExtension(t: ModuleType, query: string, config: Option<Record>) returns (r: Option<ModuleInstance>)
      requires registry.Valid() && t != Loader
      modifies registry
      ensures registry.Valid()
      ensures registry.modules == old(registry.modules) && registry.infos == old(registry.infos)
      ensures forall n :: n in old(registry.instances) ==> n in registry.instances && registry.instances[n] == old(registry.instances)[n]
      ensures registry.instances.Keys == old(registry.instances).Keys +
                Cached(OfType(old(registry.infos), Some(t)), query, old(registry.modules), old(registry.instances),
                       BaseFor(t))
      ensures forall n :: n in registry.instances && n !in old(registry.instances) ==>
                && registry.instances[n].cls == registry.modules[n]
                && registry.instances[n].config == ConfigOrEmpty(config)
      ensures var found := FirstFound(OfType(old(registry.infos), Some(t)), query, old(registry.modules),
                                      old(registry.instances), BaseFor(t));
              && (found.None? ==> r.None?)
              && (found.Some? ==> found.value in registry.instances && r == Some(registry.instances[found.value]))
    {
      var cands := registry.ListModules(Some(t));
      OfTypeKeys(registry.infos, t);
      ghost var m0, i0 := registry.modules, registry.instances;
      var want := BaseFor(t);
      var rest := cands;
      ghost var cached: set<string> := {};
      while rest != []
        invariant registry.Valid()
        invariant registry.modules == m0 && registry.infos == old(registry.infos)
        invariant forall n :: n in i0 ==> n in registry.instances && registry.instances[n] == i0[n]
        invariant registry.instances.Keys == i0.Keys + cached
        invariant forall n :: n in cached ==>
                    registry.instances[n].cls == m0[n] && registry.instances[n].config == ConfigOrEmpty(config)
        invariant Walk(cands, rest, cached, query, m0, i0, want)
        decreases |rest|
      {
        var name := rest[0].name;
        ghost var added := Added(name, query, m0, i0);
        assert name in NameSet(rest);
        if NameMatches(name, query) {
          var m := registry.GetModule(name, config);
          if m.Some? && m.value.cls.base == want {
            WalkStop(cands, rest, cached, query, m0, i0, want);
            UnionAssoc(i0.Keys, cached, added);
            return m;
          }
        }
        UnionAssoc(i0.Keys, cached, added);
        WalkNext(cands, rest, cached, query, m0, i0, want);
        cached := cached + added;
        rest := rest[1..];
      }
      return None;
    }

    /** `list_available_extensions`: the infos of each type under its
        plural name. */
    function ListAvailableExtensions(): (r: seq<(string, seq<ModuleInfo>)>)
      reads registry
      ensures |r| == 5
      ensures r[0].0 == "extractors" && r[1].0 == "analyzers" && r[2].0 == "visualizers" && r[3].0 == "rules"
              && r[4].0 == "loaders"
      ensures forall x :: x in r[0].1 <==> x in registry.infos && x.moduleType == Extractor
      ensures forall x :: x in r[1].1 <==> x in registry.infos && x.moduleType == Analyzer
      ensures forall x :: x in r[2].1 <==> x in registry.infos && x.moduleType == Visualizer
      ensures forall x :: x in r[3].1 <==> x in registry.infos && x.moduleType == RuleModule
      ensures forall x :: x in r[4].1 <==> x in registry.infos && x.moduleType == Loader
      ensures |r[0].1| + |r[1].1| + |r[2].1| + |r[3].1| + |r[4].1| == |registry.infos|
    {
      TypesPartition(registry.infos);
      [("extractors", registry.ListModules(Some(Extractor))),
       ("analyzers", registry.ListModules(Some(Analyzer))),
       ("visualizers", registry.ListModules(Some(Visualizer))),
       ("rules", registry.ListModules(Some(RuleModule))),
       ("loaders", registry.ListModules(Some(Loader)))]
    }
  }
}
