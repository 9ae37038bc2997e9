// The component loader and the component manager.
module ComponentManager {
  import opened Common
  import opened OrderedMap
  import opened Registry

  // ---------------------------------------------------------------- starting

  datatype Call = Init(name: string) | Start(name: string)

  // The calls made so far, and whether one of them threw.
  datatype Progress = Progress(calls: seq<Call>, threw: bool)

  function InitPhase(reg: Registered, n: nat): Progress
    requires n <= |reg|
  {
    if n == 0 then Progress([], false)
    else
      var before := InitPhase(reg, n - 1);
      if before.threw then before
      else Progress(before.calls + [Init(reg[n - 1].key)], !reg[n - 1].value.inits)
  }

  function StartPhase(reg: Registered, n: nat): Progress
    requires n <= |reg|
  {
    if n == 0 then InitPhase(reg, |reg|)
    else
      var before := StartPhase(reg, n - 1);
      if before.threw then before
      else Progress(before.calls + [Start(reg[n - 1].key)], !reg[n - 1].value.starts)
  }

  lemma {:induction false} InitPhaseExact(reg: Registered, n: nat)
    requires n <= |reg|
    ensures var p := InitPhase(reg, n);
            && (!p.threw <==> forall i :: 0 <= i < n ==> reg[i].value.inits)
            && (!p.threw ==> |p.calls| == n)
            && |p.calls| <= n && forall i :: 0 <= i < |p.calls| ==> p.calls[i] == Init(reg[i].key)
  {
    if n > 0 {
      InitPhaseExact(reg, n - 1);
    }
  }

  // Call number i of a run in which nothing throws.
  function CallAt(reg: Registered, i: nat): Call
    requires i < 2 * |reg|
  {
    if i < |reg| then Init(reg[i].key) else Start(reg[i - |reg|].key)
  }

  // No component is started unless every component was initialised, and both
  // phases run in name order; nothing throws exactly when no component does.
  lemma {:induction false} StartPhaseExact(reg: Registered, n: nat)
    requires n <= |reg|
    ensures var p := StartPhase(reg, n);
            && (!p.threw <==> (forall i :: 0 <= i < |reg| ==> reg[i].value.inits)
                              && forall i :: 0 <= i < n ==> reg[i].value.starts)
            && (!p.threw ==> |p.calls| == |reg| + n)
            && |p.calls| <= |reg| + n
            && forall i :: 0 <= i < |p.calls| ==> p.calls[i] == CallAt(reg, i)
  {
    if n == 0 {
      InitPhaseExact(reg, |reg|);
    } else {
      StartPhaseExact(reg, n - 1);
      var before, p := StartPhase(reg, n - 1), StartPhase(reg, n);
      if !before.threw {
        assert p.calls == before.calls + [Start(reg[n - 1].key)] && |before.calls| == |reg| + n - 1;
      }
    }
  }

  // The calls made when component k is the first to throw on init.
  lemma {:induction false} InitThrowsAt(reg: Registered, k: nat)
    requires k < |reg| && !reg[k].value.inits && forall j :: 0 <= j < k ==> reg[j].value.inits
    ensures StartPhase(reg, |reg|) == Progress(seq(k + 1, j requires 0 <= j <= k => Init(reg[j].key)), true)
  {
    InitPhaseExact(reg, k);
    var calls := seq(k + 1, j requires 0 <= j <= k => Init(reg[j].key));
    assert InitPhase(reg, k + 1) == Progress(InitPhase(reg, k).calls + [Init(reg[k].key)], true);
    assert InitPhase(reg, k + 1).calls == calls;
    InitStops(reg, k + 1);
    StartStops(reg, 0);
  }

  // The calls made when every init returns and component k is the first to
  // throw on start.
  lemma {:induction false} StartThrowsAt(reg: Registered, k: nat)
    requires k < |reg| && !reg[k].value.starts && forall j :: 0 <= j < k ==> reg[j].value.starts
    requires forall j :: 0 <= j < |reg| ==> reg[j].value.inits
    ensures StartPhase(reg, |reg|) ==
            Progress(seq(|reg| + k + 1, j requires 0 <= j <= |reg| + k => CallAt(reg, j)), true)
  {
    StartPhaseExact(reg, k);
    var calls := seq(|reg| + k + 1, j requires 0 <= j <= |reg| + k => CallAt(reg, j));
    assert StartPhase(reg, k + 1) == Progress(StartPhase(reg, k).calls + [Start(reg[k].key)], true);
    assert StartPhase(reg, k + 1).calls == calls;
    StartStops(reg, k + 1);
  }

  ghost predicate Precedes(calls: seq<Call>, x: Call, y: Call) {
    exists p, q :: 0 <= p < q < |calls| && calls[p] == x && calls[q] == y
  }

  // When nothing throws, a component is initialised and started before another
  // exactly when its name is smaller.
  lemma {:induction false} StartOrderExact(reg: Registered, a: nat, b: nat)
    requires Sorted(reg) && a < |reg| && b < |reg| && !StartPhase(reg, |reg|).threw
    ensures var calls := StartPhase(reg, |reg|).calls;
            && (Precedes(calls, Start(reg[a].key), Start(reg[b].key)) <==> Less(reg[a].key, reg[b].key))
            && (Precedes(calls, Init(reg[a].key), Init(reg[b].key)) <==> Less(reg[a].key, reg[b].key))
            && Precedes(calls, Init(reg[a].key), Start(reg[b].key))
  {
    var n, calls := |reg|, StartPhase(reg, |reg|).calls;
    StartPhaseExact(reg, n);
    LessByIndex(reg, a, b);
    assert calls[a] == Init(reg[a].key) && calls[n + b] == Start(reg[b].key);
    assert calls[b] == Init(reg[b].key) && calls[n + a] == Start(reg[a].key);
    forall p | 0 <= p < |calls|
      ensures calls[p] == Init(reg[a].key) ==> p == a
      ensures calls[p] == Init(reg[b].key) ==> p == b
      ensures calls[p] == Start(reg[a].key) ==> p == n + a
      ensures calls[p] == Start(reg[b].key) ==> p == n + b
    {
      CallOnce(reg, p, a);
      CallOnce(reg, p, b);
    }
  }

  lemma {:induction false} LessByIndex(reg: Registered, a: nat, b: nat)
    requires Sorted(reg) && a < |reg| && b < |reg|
    ensures a < b <==> Less(reg[a].key, reg[b].key)
  {
    LessTotal(reg[a].key, reg[b].key);
    LessIrreflexive(reg[a].key);
  }

  lemma {:induction false} CallOnce(reg: Registered, p: nat, a: nat)
    requires Sorted(reg) && p < 2 * |reg| && a < |reg|
    ensures CallAt(reg, p) == Init(reg[a].key) ==> p == a
    ensures CallAt(reg, p) == Start(reg[a].key) ==> p == |reg| + a
  {
    var k := if p < |reg| then p else p - |reg|;
    if k < a {
      DistinctKeys(reg, k, a);
    } else if a < k {
      DistinctKeys(reg, a, k);
    }
  }

  // ---------------------------------------------------------------- dependencies

  // Everything was registered, initialised and started.
  ghost predicate StartsUp(config: seq<ConfigEntry>, disk: map<string, Factory>) {
    var outcome := RegisterAll(config, |config|, disk);
    outcome.error == None && !StartPhase(outcome.state.registered, |outcome.state.registered|).threw
  }

  function CallsOf(config: seq<ConfigEntry>, disk: map<string, Factory>): seq<Call> {
    var reg := RegisterAll(config, |config|, disk).state.registered;
    StartPhase(reg, |reg|).calls
  }

  // Component i, which is started at all, is bound to component j.
  ghost predicate DependsOn(config: seq<ConfigEntry>, disk: map<string, Factory>, i: nat, j: nat)
    requires i < |config| && j < |config|
  {
    BoundTo(config, disk, i, j) && disk[PathAt(config, i)].offers != []
  }

  lemma {:induction false} RegisteredAt(config: seq<ConfigEntry>, disk: map<string, Factory>, i: nat) returns (k: nat)
    requires i < |config| && RegisterAll(config, |config|, disk).error == None
    requires PathAt(config, i) in disk && disk[PathAt(config, i)].offers != []
    ensures var reg := RegisterAll(config, |config|, disk).state.registered;
            && Sorted(reg) && k < |reg|
            && reg[k] == Entry(config[i].name, ComponentOf(config[i].name, disk[PathAt(config, i)]))
  {
    StartupExact(config, disk, |config|);
    var reg := RegisterAll(config, |config|, disk).state.registered;
    var e := Entry(config[i].name, ComponentOf(config[i].name, disk[PathAt(config, i)]));
    assert e in reg;
    k :| 0 <= k < |reg| && reg[k] == e;
  }

  // Component i is registered, as it offers an interface.
  ghost predicate Offers(config: seq<ConfigEntry>, disk: map<string, Factory>, i: nat)
    requires i < |config|
  {
    PathAt(config, i) in disk && disk[PathAt(config, i)].offers != []
  }

  // No initComponent and no startComponent of a registered component throws.
  ghost predicate NoneThrows(config: seq<ConfigEntry>, disk: map<string, Factory>) {
    forall i :: 0 <= i < |config| && Offers(config, disk, i) ==>
      disk[PathAt(config, i)].inits && disk[PathAt(config, i)].starts
  }

  // Everything starts up exactly when the configuration is accepted and nothing
  // registered throws.
  lemma {:induction false} StartsUpExact(config: seq<ConfigEntry>, disk: map<string, Factory>)
    ensures StartsUp(config, disk) <==> AcceptedUpTo(config, disk, |config|) && NoneThrows(config, disk)
  {
    StartupExact(config, disk, |config|);
    var reg := RegisterAll(config, |config|, disk).state.registered;
    StartPhaseExact(reg, |reg|);
    if AcceptedUpTo(config, disk, |config|) {
      NoneThrowsIff(config, disk);
    }
  }

  lemma {:induction false} NoneThrowsIff(config: seq<ConfigEntry>, disk: map<string, Factory>)
    requires AcceptedUpTo(config, disk, |config|)
    ensures var reg := RegisterAll(config, |config|, disk).state.registered;
            NoneThrows(config, disk) <==> forall k :: 0 <= k < |reg| ==> reg[k].value.inits && reg[k].value.starts
  {
    StartupExact(config, disk, |config|);
    var reg := RegisterAll(config, |config|, disk).state.registered;
    if NoneThrows(config, disk) {
      forall k | 0 <= k < |reg|
        ensures reg[k].value.inits && reg[k].value.starts
      {
        assert reg[k] in reg;
        var j :| 0 <= j < |config| && IsEntryOf(config, disk, j, reg[k]);
        assert Offers(config, disk, j);
      }
    }
    if forall k :: 0 <= k < |reg| ==> reg[k].value.inits && reg[k].value.starts {
      forall i | 0 <= i < |config| && Offers(config, disk, i)
        ensures disk[PathAt(config, i)].inits && disk[PathAt(config, i)].starts
      {
        var k := RegisteredAt(config, disk, i);
      }
    }
  }

  lemma {:induction false} AcceptedRegisters(config: seq<ConfigEntry>, disk: map<string, Factory>)
    requires AcceptedUpTo(config, disk, |config|)
    ensures RegisterAll(config, |config|, disk).error == None
    ensures Sorted(RegisterAll(config, |config|, disk).state.registered)
  {
    StartupExact(config, disk, |config|);
  }

  // The first registered component, in name order, whose initComponent throws
  // is the last one called, and nothing is started.
  lemma {:induction false} InitFailure(config: seq<ConfigEntry>, disk: map<string, Factory>, i: nat)
    requires AcceptedUpTo(config, disk, |config|) && i < |config| && Offers(config, disk, i)
    requires !disk[PathAt(config, i)].inits
    requires forall j :: 0 <= j < |config| && Offers(config, disk, j) && Less(config[j].name, config[i].name) ==>
               disk[PathAt(config, j)].inits
    ensures !StartsUp(config, disk)
    ensures var calls := CallsOf(config, disk);
            && calls != [] && calls[|calls| - 1] == Init(config[i].name)
            && forall c :: c in calls ==> c.Init?
  {
    AcceptedRegisters(config, disk);
    var reg := RegisterAll(config, |config|, disk).state.registered;
    var k := RegisteredAt(config, disk, i);
    forall j | 0 <= j < k
      ensures reg[j].value.inits
    {
      var m := EntryBefore(config, disk, j, k);
    }
    InitThrowsAt(reg, k);
  }

  // The first one whose startComponent throws is the last one called, after
  // every registered component was initialised.
  lemma {:induction false} StartFailure(config: seq<ConfigEntry>, disk: map<string, Factory>, i: nat)
    requires AcceptedUpTo(config, disk, |config|) && i < |config| && Offers(config, disk, i)
    requires !disk[PathAt(config, i)].starts
    requires forall j :: 0 <= j < |config| && Offers(config, disk, j) ==> disk[PathAt(config, j)].inits
    requires forall j :: 0 <= j < |config| && Offers(config, disk, j) && Less(config[j].name, config[i].name) ==>
               disk[PathAt(config, j)].starts
    ensures !StartsUp(config, disk)
    ensures var calls := CallsOf(config, disk);
            && calls != [] && calls[|calls| - 1] == Start(config[i].name)
            && forall j :: 0 <= j < |config| && Offers(config, disk, j) ==> Init(config[j].name) in calls
  {
    AcceptedRegisters(config, disk);
    var reg := RegisterAll(config, |config|, disk).state.registered;
    var k := RegisteredAt(config, disk, i);
    forall j | 0 <= j < k
      ensures reg[j].value.starts
    {
      var m := EntryBefore(config, disk, j, k);
    }
    forall j | 0 <= j < |reg|
      ensures reg[j].value.inits
    {
      var m := EntryAt(config, disk, j);
    }
    StartThrowsAt(reg, k);
    forall j | 0 <= j < |config| && Offers(config, disk, j)
      ensures Init(config[j].name) in CallsOf(config, disk)
    {
      InitIsCalled(config, disk, j, k);
    }
  }

  lemma {:induction false} InitIsCalled(config: seq<ConfigEntry>, disk: map<string, Factory>, j: nat, k: nat)
    requires AcceptedUpTo(config, disk, |config|) && j < |config| && Offers(config, disk, j)
    requires var reg := RegisterAll(config, |config|, disk).state.registered;
             k < |reg| && StartPhase(reg, |reg|).calls ==
                          seq(|reg| + k + 1, m requires 0 <= m <= |reg| + k => CallAt(reg, m))
    ensures Init(config[j].name) in CallsOf(config, disk)
  {
    AcceptedRegisters(config, disk);
    var m := RegisteredAt(config, disk, j);
    assert CallsOf(config, disk)[m] == Init(config[j].name);
  }

  lemma {:induction false} EntryBefore(config: seq<ConfigEntry>, disk: map<string, Factory>, k: nat, n: nat)
    returns (j: nat)
    requires AcceptedUpTo(config, disk, |config|)
    requires k < n < |RegisterAll(config, |config|, disk).state.registered|
    ensures j < |config| && Offers(config, disk, j)
    ensures var reg := RegisterAll(config, |config|, disk).state.registered;
            && reg[k].value.inits == disk[PathAt(config, j)].inits
            && reg[k].value.starts == disk[PathAt(config, j)].starts
            && Less(config[j].name, reg[n].key)
  {
    AcceptedRegisters(config, disk);
    j := EntryAt(config, disk, k);
  }

  lemma {:induction false} EntryAt(config: seq<ConfigEntry>, disk: map<string, Factory>, k: nat) returns (j: nat)
    requires AcceptedUpTo(config, disk, |config|)
    requires k < |RegisterAll(config, |config|, disk).state.registered|
    ensures j < |config| && Offers(config, disk, j)
    ensures var e := RegisterAll(config, |config|, disk).state.registered[k];
            && e.key == config[j].name
            && e.value.inits == disk[PathAt(config, j)].inits && e.value.starts == disk[PathAt(config, j)].starts
  {
    StartupExact(config, disk, |config|);
    var reg := RegisterAll(config, |config|, disk).state.registered;
    assert reg[k] in reg;
    j :| 0 <= j < |config| && IsEntryOf(config, disk, j, reg[k]);
  }

  lemma {:induction false} StartedInNameOrder(config: seq<ConfigEntry>, disk: map<string, Factory>, i: nat, j: nat)
    requires i < |config| && j < |config| && StartsUp(config, disk) && DependsOn(config, disk, i, j)
    ensures var calls, x, y := CallsOf(config, disk), config[i].name, config[j].name;
            && (Precedes(calls, Start(y), Start(x)) <==> Less(y, x))
            && (Precedes(calls, Start(x), Start(y)) <==> Less(x, y))
  {
    ProviderOffers(config, disk, i, j);
    var a := RegisteredAt(config, disk, j);
    var b := RegisteredAt(config, disk, i);
    StartOrderExact(RegisterAll(config, |config|, disk).state.registered, a, b);
    StartOrderExact(RegisterAll(config, |config|, disk).state.registered, b, a);
  }

  // Every component finds what it depends on already started.
  ghost predicate DependenciesStartFirst(config: seq<ConfigEntry>, disk: map<string, Factory>) {
    forall i: nat, j: nat :: i < |config| && j < |config| && DependsOn(config, disk, i, j) ==>
      Precedes(CallsOf(config, disk), Start(config[j].name), Start(config[i].name))
  }

  // Dependencies have smaller names.
  ghost predicate NamesFollowDependencies(config: seq<ConfigEntry>, disk: map<string, Factory>) {
    forall i: nat, j: nat :: i < |config| && j < |config| && DependsOn(config, disk, i, j) ==>
      Less(config[j].name, config[i].name)
  }

  // A dependency is started before the component that was bound to it exactly
  // when its name is smaller: registration order plays no part. So an accepted
  // configuration starts dependencies first if and only if its names follow them.
  lemma {:induction false} StartOrderSoundIff(config: seq<ConfigEntry>, disk: map<string, Factory>)
    requires StartsUp(config, disk)
    ensures DependenciesStartFirst(config, disk) <==> NamesFollowDependencies(config, disk)
  {
    forall i: nat, j: nat | i < |config| && j < |config| && DependsOn(config, disk, i, j)
      ensures Precedes(CallsOf(config, disk), Start(config[j].name), Start(config[i].name)) <==>
              Less(config[j].name, config[i].name)
    {
      StartedInNameOrder(config, disk, i, j);
    }
  }

  // ---------------------------------------------------------------- objects

  class CComponentLoader {
    var libraries: map<string, Option<Factory>>

    constructor ()
      ensures libraries == map[]
    {
      libraries := map[];
    }

    // `disk` maps importable paths to their contents. A path is loaded at most
    // once; a failed import leaves an empty entry, which may be tried again.
    method LoadComponent(path: string, disk: map<string, Factory>)
      returns (factory: Option<Factory>, error: Option<Error>)
      modifies this
      ensures Loaded(old(libraries), path) ==> error == Some(Reload) && libraries == old(libraries)
      ensures !Loaded(old(libraries), path) ==>
                libraries == old(libraries)[path := if path in disk then Some(disk[path]) else None]
      ensures error == None <==> !Loaded(old(libraries), path) && path in disk
      ensures error == None ==> factory == Some(disk[path])
      ensures error == None || error == Some(if Loaded(old(libraries), path) then Reload else ImportFailed)
    {
      factory, error := None, None;
      if path !in libraries {
        libraries := libraries[path := None];
      }
      if libraries[path].None? {
        if path !in disk {
          error := Some(ImportFailed);
          return;
        }
        libraries := libraries[path := Some(disk[path])];
        factory := Some(disk[path]);
      } else {
        error := Some(Reload);
      }
    }
  }

  class CComponentManager {
    const loader: CComponentLoader
    var registered: Registered

    constructor ()
      ensures registered == [] && loader.libraries == map[] && fresh(loader)
    {
      loader := new CComponentLoader();
      registered := [];
    }

    function Snapshot(): State
      reads this, loader
    {
      State(loader.libraries, registered)
    }

    // The inner loop of resolveDependencies: all registered components are
    // visited, the insert keeps the first binding.
    method BindDependency(dep: Entry<string>, bound: Resolved) returns (resolved: Resolved, found: bool)
      requires dep.key !in bound
      ensures found <==> FirstProvider(registered, dep).Some?
      ensures resolved == if found then bound[dep.key := FirstProvider(registered, dep).value] else bound
    {
      resolved, found := bound, false;
      var i := 0;
      while i < |registered|
        invariant i <= |registered|
        invariant found <==> dep.key in resolved
        invariant found ==> FirstProvider(registered, dep).Some?
                            && resolved == bound[dep.key := FirstProvider(registered, dep).value]
        invariant !found ==> resolved == bound && FirstProvider(registered, dep) == FirstProvider(registered[i..], dep)
      {
        var provided := Find(registered[i].value.provided, dep.key);
        if provided.Some? && provided.value.typeName == dep.value {
          if dep.key !in resolved {
            resolved := resolved[dep.key := provided.value];
          }
          found := true;
        }
        i := i + 1;
      }
    }

    method ResolveDependencies(deps: seq<Entry<string>>) returns (resolved: Option<Resolved>)
      requires Sorted(deps)
      ensures resolved == Resolve(registered, deps)
    {
      var bound: Resolved := map[];
      var i := 0;
      assert deps[..0] == [];
      while i < |deps|
        invariant i <= |deps|
        invariant Resolve(registered, deps[..i]) == Some(bound)
        invariant forall key :: key in bound ==> exists j :: 0 <= j < i && deps[j].key == key
      {
        assert deps[..i + 1][..i] == deps[..i];
        forall j | 0 <= j < i
          ensures deps[j].key != deps[i].key
        {
          DistinctKeys(deps, j, i);
        }
        var found;
        bound, found := BindDependency(deps[i], bound);
        if !found {
          ResolveStops(registered, deps, i + 1);
          return None;
        }
        assert deps[i].key in bound;
        i := i + 1;
      }
      assert deps[..|deps|] == deps;
      resolved := Some(bound);
    }

    // registerComponent.
    method RegisterComponent(name: string, path: string, disk: map<string, Factory>) returns (error: Option<Error>)
      modifies this, loader
      ensures var outcome := Register(old(Snapshot()), name, path, disk);
              Snapshot() == outcome.state && error == outcome.error
      ensures error.Some? ==> registered == old(registered)
      ensures loader.libraries ==
              if Loaded(old(loader.libraries), path) then old(loader.libraries)
              else old(loader.libraries)[path := if path in disk then Some(disk[path]) else None]
    {
      var factory: Option<Factory>;
      factory, error := loader.LoadComponent(path, disk);
      if error.Some? {
        return;
      }
      var f := factory.value;
      FillInfoFind(f.depends, "");
      var resolved := ResolveDependencies(FillInfo(f.depends));
      if resolved.None? {
        return Some(Unsatisfied);
      }
      // The constructor: TDepends first, then the body.
      if CastAll(f.depends, resolved.value).Some? {
        return Some(CastFailed);
      }
      if !f.constructs {
        return Some(ConstructionFailed);
      }
      var component := ComponentOf(name, f);
      AddComponent(name, component);
      FillProvidedFind(f.offers, name, "");
    }

    // The component is inserted once for every interface it provides.
    method AddComponent(name: string, component: Component)
      modifies this`registered
      ensures registered ==
              if component.provided == [] then old(registered) else Insert(old(registered), name, component)
    {
      for i := 0 to |component.provided|
        invariant registered == if i == 0 then old(registered) else Insert(old(registered), name, component)
      {
        InsertTwice(old(registered), name, component);
        registered := Insert(registered, name, component);
      }
    }

    method InitAndStartComponents() returns (progress: Progress)
      ensures progress == StartPhase(registered, |registered|)
    {
      var calls: seq<Call> := [];
      for i := 0 to |registered|
        invariant InitPhase(registered, i) == Progress(calls, false)
      {
        calls := calls + [Init(registered[i].key)];
        if !registered[i].value.inits {
          InitStops(registered, i + 1);
          StartStops(registered, 0);
          return Progress(calls, true);
        }
      }
      for i := 0 to |registered|
        invariant StartPhase(registered, i) == Progress(calls, false)
      {
        calls := calls + [Start(registered[i].key)];
        if !registered[i].value.starts {
          StartStops(registered, i + 1);
          return Progress(calls, true);
        }
      }
      progress := Progress(calls, false);
    }
  }

  // A dependency that cannot be resolved fails the whole list.
  lemma {:induction false} ResolveStops(reg: Registered, deps: seq<Entry<string>>, n: nat)
    requires n <= |deps| && Resolve(reg, deps[..n]) == None
    ensures Resolve(reg, deps) == None
    decreases |deps| - n
  {
    if n < |deps| {
      assert deps[..n + 1][..n] == deps[..n];
      ResolveStops(reg, deps, n + 1);
    } else {
      assert deps[..n] == deps;
    }
  }

  lemma {:induction false} InitStops(reg: Registered, n: nat)
    requires n <= |reg| && InitPhase(reg, n).threw
    ensures InitPhase(reg, |reg|) == InitPhase(reg, n)
    decreases |reg| - n
  {
    if n < |reg| {
      InitStops(reg, n + 1);
    }
  }

  lemma {:induction false} StartStops(reg: Registered, n: nat)
    requires n <= |reg| && StartPhase(reg, n).threw
    ensures StartPhase(reg, |reg|) == StartPhase(reg, n)
    decreases |reg| - n
  {
    if n < |reg| {
      StartStops(reg, n + 1);
    }
  }
}
