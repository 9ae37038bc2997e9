// Component registration as functions: loading, dependency resolution, the
// second check by TDepends, and the launcher's registration loop.
module Registry {
  import opened Common
  import opened OrderedMap

  // A registered interface: its type name and the component that provides it.
  datatype Interface = Interface(typeName: string, owner: string)

  // A template pack of (interface name, type name) pairs.
  type Pack = seq<Entry<string>>

  // What a component library contains; the flags say whether the constructor
  // body, initComponent and startComponent return without throwing.
  datatype Factory = Factory(depends: Pack, offers: Pack, constructs: bool, inits: bool, starts: bool)

  datatype Component = Component(provided: seq<Entry<Interface>>, inits: bool, starts: bool)

  type Registered = seq<Entry<Component>>

  type Resolved = map<string, Interface>

  datatype Error = Reload | ImportFailed | Unsatisfied | CastFailed | ConstructionFailed

  // fillInfo: the pack as a map, the first pair of a name winning.
  function FillInfo(pack: Pack): seq<Entry<string>> {
    if pack == [] then []
    else Insert(FillInfo(pack[..|pack| - 1]), pack[|pack| - 1].key, pack[|pack| - 1].value)
  }

  function FillProvided(pack: Pack, owner: string): seq<Entry<Interface>> {
    if pack == [] then []
    else
      var last := pack[|pack| - 1];
      Insert(FillProvided(pack[..|pack| - 1], owner), last.key, Interface(last.value, owner))
  }

  lemma {:induction false} FillInfoFind(pack: Pack, key: string)
    ensures Sorted(FillInfo(pack))
    ensures Find(FillInfo(pack), key) == Find(pack, key)
    ensures forall e :: e in FillInfo(pack) ==> e in pack
  {
    if pack != [] {
      var init, last := pack[..|pack| - 1], pack[|pack| - 1];
      FillInfoFind(init, key);
      InsertFind(FillInfo(init), last.key, last.value, key);
      FindAppend(init, last, key);
      assert pack == init + [last];
    }
  }

  lemma {:induction false} FillProvidedFind(pack: Pack, owner: string, key: string)
    ensures Sorted(FillProvided(pack, owner))
    ensures Find(FillProvided(pack, owner), key) ==
            match Find(pack, key) case None => None case Some(t) => Some(Interface(t, owner))
    ensures pack != [] <==> FillProvided(pack, owner) != []
  {
    if pack != [] {
      var init, last := pack[..|pack| - 1], pack[|pack| - 1];
      FillProvidedFind(init, owner, key);
      InsertFind(FillProvided(init, owner), last.key, Interface(last.value, owner), key);
      FindAppend(init, last, key);
      assert pack == init + [last];
    }
  }

  lemma {:induction false} FindAppend<V>(m: seq<Entry<V>>, e: Entry<V>, key: string)
    ensures Find(m + [e], key) ==
            if Find(m, key).Some? then Find(m, key) else if e.key == key then Some(e.value) else None
  {
    if m != [] {
      FindAppend(m[1..], e, key);
      assert (m + [e])[1..] == m[1..] + [e];
    }
  }

  // ---------------------------------------------------------------- resolving

  predicate Matches(c: Component, dep: Entry<string>) {
    var provided := Find(c.provided, dep.key);
    provided.Some? && provided.value.typeName == dep.value
  }

  // The first registered component, in name order, that provides `dep`.
  function FirstProvider(reg: Registered, dep: Entry<string>): Option<Interface> {
    if reg == [] then None
    else if Matches(reg[0].value, dep) then Find(reg[0].value.provided, dep.key)
    else FirstProvider(reg[1..], dep)
  }

  function Resolve(reg: Registered, deps: seq<Entry<string>>): Option<Resolved> {
    if deps == [] then Some(map[])
    else
      var dep := deps[|deps| - 1];
      match Resolve(reg, deps[..|deps| - 1])
      case None => None
      case Some(resolved) =>
        match FirstProvider(reg, dep)
        case None => None
        case Some(interface) => Some(resolved[dep.key := interface])
  }

  // Component k is the least-named one that provides `dep` with its type.
  ghost predicate LeastProvider(reg: Registered, dep: Entry<string>, k: nat) {
    && k < |reg| && Matches(reg[k].value, dep)
    && forall j :: 0 <= j < |reg| && Matches(reg[j].value, dep) && j != k ==> Less(reg[k].key, reg[j].key)
  }

  lemma {:induction false} FirstProviderExact(reg: Registered, dep: Entry<string>) returns (k: nat)
    requires Sorted(reg)
    ensures FirstProvider(reg, dep) == None <==> forall j :: 0 <= j < |reg| ==> !Matches(reg[j].value, dep)
    ensures FirstProvider(reg, dep).Some? ==>
              LeastProvider(reg, dep, k) && FirstProvider(reg, dep) == Find(reg[k].value.provided, dep.key)
  {
    k := 0;
    if reg != [] && !Matches(reg[0].value, dep) {
      var j := FirstProviderExact(reg[1..], dep);
      assert forall i :: 0 < i < |reg| ==> reg[i] == reg[1..][i - 1];
      k := j + 1;
    }
  }

  ghost predicate Satisfied(reg: Registered, dep: Entry<string>) {
    exists j :: 0 <= j < |reg| && Matches(reg[j].value, dep)
  }

  ghost predicate BoundToLeast(reg: Registered, dep: Entry<string>, resolved: Resolved) {
    && dep.key in resolved
    && exists k: nat :: LeastProvider(reg, dep, k) && Find(reg[k].value.provided, dep.key) == Some(resolved[dep.key])
  }

  // `resolved` has exactly the names of `deps`, each bound to the least-named
  // provider.
  ghost predicate ResolvesTo(reg: Registered, deps: seq<Entry<string>>, resolved: Resolved) {
    && (forall key :: key in resolved ==> Requests(deps, key))
    && (forall i :: 0 <= i < |deps| ==> BoundToLeast(reg, deps[i], resolved))
  }

  ghost predicate Requests(deps: seq<Entry<string>>, key: string) {
    exists i :: 0 <= i < |deps| && deps[i].key == key
  }

  ghost predicate AllSatisfied(reg: Registered, deps: seq<Entry<string>>) {
    forall i :: 0 <= i < |deps| ==> Satisfied(reg, deps[i])
  }

  lemma {:induction false} ResolveSucceeds(reg: Registered, deps: seq<Entry<string>>)
    requires Sorted(reg)
    ensures Resolve(reg, deps).Some? <==> AllSatisfied(reg, deps)
  {
    if deps != [] {
      var init, dep := deps[..|deps| - 1], deps[|deps| - 1];
      ResolveSucceeds(reg, init);
      var k := FirstProviderExact(reg, dep);
      assert Satisfied(reg, dep) <==> FirstProvider(reg, dep).Some?;
      assert AllSatisfied(reg, deps) <==> AllSatisfied(reg, init) && Satisfied(reg, dep);
    }
  }

  // The resolver succeeds exactly when every dependency is provided with its
  // type, and then returns exactly the requested names, each bound to the
  // least-named provider.
  lemma {:induction false} ResolveExact(reg: Registered, deps: seq<Entry<string>>)
    requires Sorted(reg) && Sorted(deps)
    ensures Resolve(reg, deps).Some? <==> AllSatisfied(reg, deps)
    ensures Resolve(reg, deps).Some? ==> ResolvesTo(reg, deps, Resolve(reg, deps).value)
  {
    ResolveSucceeds(reg, deps);
    if deps != [] && Resolve(reg, deps).Some? {
      var init, dep := deps[..|deps| - 1], deps[|deps| - 1];
      assert init + [dep] == deps;
      ResolveExact(reg, init);
      var k := FirstProviderExact(reg, dep);
      ResolvesNext(reg, init, dep, Resolve(reg, init).value, FirstProvider(reg, dep).value, k);
    }
  }

  lemma {:induction false} ResolvesNext(reg: Registered, init: seq<Entry<string>>, dep: Entry<string>,
                                        before: Resolved, i: Interface, k: nat)
    requires ResolvesTo(reg, init, before) && Sorted(init + [dep])
    requires LeastProvider(reg, dep, k) && Find(reg[k].value.provided, dep.key) == Some(i)
    ensures ResolvesTo(reg, init + [dep], before[dep.key := i])
  {
    var deps, resolved := init + [dep], before[dep.key := i];
    forall d | 0 <= d < |init|
      ensures BoundToLeast(reg, init[d], resolved)
    {
      assert BoundToLeast(reg, init[d], before);
      assert deps[d] == init[d] && deps[|init|] == dep;
      DistinctKeys(deps, d, |init|);
    }
    assert BoundToLeast(reg, dep, resolved);
    forall key | key in resolved
      ensures Requests(deps, key)
    {
      RequestsNext(init, dep, before, key);
    }
  }

  lemma {:induction false} RequestsNext(init: seq<Entry<string>>, dep: Entry<string>, before: Resolved, key: string)
    requires key in before ==> Requests(init, key)
    requires key in before || key == dep.key
    ensures Requests(init + [dep], key)
  {
    var deps := init + [dep];
    if key == dep.key {
      assert deps[|init|].key == key;
    } else {
      var j :| 0 <= j < |init| && init[j].key == key;
      assert deps[j].key == key;
    }
  }

  lemma {:induction false} DistinctKeys<V>(m: seq<Entry<V>>, i: nat, j: nat)
    requires Sorted(m) && i < j < |m|
    ensures m[i].key != m[j].key
  {
    LessIrreflexive(m[i].key);
  }

  // ---------------------------------------------------------------- TDepends

  datatype CastError = CannotFind | TypeMismatch

  // TDepends::cast for one dependency of the pack.
  function Cast(dep: Entry<string>, resolved: Resolved): Option<CastError> {
    if dep.key !in resolved then Some(CannotFind)
    else if resolved[dep.key].typeName != dep.value then Some(TypeMismatch)
    else None
  }

  // The constructor of TDepends casts the pack in order.
  function CastAll(pack: Pack, resolved: Resolved): Option<CastError> {
    if pack == [] then None
    else if Cast(pack[0], resolved).Some? then Cast(pack[0], resolved)
    else CastAll(pack[1..], resolved)
  }

  // No interface name is requested with two different types.
  ghost predicate Consistent(pack: Pack) {
    forall i, j :: 0 <= i < |pack| && 0 <= j < |pack| && pack[i].key == pack[j].key ==> pack[i].value == pack[j].value
  }

  lemma {:induction false} CastAllExact(pack: Pack, resolved: Resolved)
    ensures CastAll(pack, resolved) == None <==> forall i :: 0 <= i < |pack| ==> Cast(pack[i], resolved) == None
  {
    if pack != [] {
      CastAllExact(pack[1..], resolved);
      assert forall i :: 0 < i < |pack| ==> pack[i] == pack[1..][i - 1];
    }
  }

  // On a map the resolver made for a pack, the casts throw exactly when the
  // pack itself asks for one name with two types.
  lemma {:induction false} CastsAgree(reg: Registered, pack: Pack)
    requires Sorted(reg) && Resolve(reg, FillInfo(pack)).Some?
    ensures CastAll(pack, Resolve(reg, FillInfo(pack)).value) == None <==> Consistent(pack)
  {
    var deps, resolved := FillInfo(pack), Resolve(reg, FillInfo(pack)).value;
    CastAllExact(pack, resolved);
    FillInfoFind(pack, "");
    ResolveExact(reg, deps);
    forall i | 0 <= i < |pack|
      ensures pack[i].key in resolved && Find(pack, pack[i].key) == Some(resolved[pack[i].key].typeName)
    {
      ResolvedType(reg, pack, i);
    }
    if Consistent(pack) {
      forall i | 0 <= i < |pack|
        ensures Cast(pack[i], resolved) == None
      {
        FindEntry(pack, pack[i].key);
      }
    }
  }

  // A resolved name has the type of the first pair of the pack.
  lemma {:induction false} ResolvedType(reg: Registered, pack: Pack, i: nat)
    requires Sorted(reg) && Resolve(reg, FillInfo(pack)).Some? && i < |pack|
    ensures var resolved := Resolve(reg, FillInfo(pack)).value;
            pack[i].key in resolved && Find(pack, pack[i].key) == Some(resolved[pack[i].key].typeName)
  {
    var key, deps, resolved := pack[i].key, FillInfo(pack), Resolve(reg, FillInfo(pack)).value;
    FillInfoFind(pack, key);
    FindEntry(pack, key);
    FindEntry(deps, key);
    ResolveExact(reg, deps);
    var dep := Entry(key, Find(deps, key).value);
    var j :| 0 <= j < |deps| && deps[j] == dep;
    assert BoundToLeast(reg, deps[j], resolved);
  }

  // ---------------------------------------------------------------- registration

  // m_libraries (an entry without a factory is left by a failed import) and
  // m_registered_components.
  datatype State = State(libraries: map<string, Option<Factory>>, registered: Registered)

  datatype Outcome = Outcome(state: State, error: Option<Error>)

  predicate Loaded(libraries: map<string, Option<Factory>>, path: string) {
    path in libraries && libraries[path].Some?
  }

  // Everything registerComponent does with a factory that was loaded.
  function AdmitFactory(registered: Registered, name: string, f: Factory): (Registered, Option<Error>) {
    match Resolve(registered, FillInfo(f.depends))
    case None => (registered, Some(Unsatisfied))
    case Some(resolved) =>
      if CastAll(f.depends, resolved).Some? then (registered, Some(CastFailed))
      else if !f.constructs then (registered, Some(ConstructionFailed))
      else if f.offers == [] then (registered, None)
      else (Insert(registered, name, ComponentOf(name, f)), None)
  }

  function ComponentOf(name: string, f: Factory): Component {
    Component(FillProvided(f.offers, name), f.inits, f.starts)
  }

  // `disk` maps the paths that can be imported to what they contain.
  function Register(s: State, name: string, path: string, disk: map<string, Factory>): Outcome {
    if Loaded(s.libraries, path) then Outcome(s, Some(Reload))
    else if path !in disk then Outcome(s.(libraries := s.libraries[path := None]), Some(ImportFailed))
    else
      var (registered, error) := AdmitFactory(s.registered, name, disk[path]);
      Outcome(State(s.libraries[path := Some(disk[path])], registered), error)
  }

  datatype ConfigEntry = ConfigEntry(name: string, libPath: string)

  // getComponentLib: the parser's map keeps the first entry of a name.
  function LibOf(config: seq<ConfigEntry>, name: string): string {
    if config == [] then "" else if config[0].name == name then config[0].libPath else LibOf(config[1..], name)
  }

  lemma {:induction false} LibOfFirst(config: seq<ConfigEntry>, name: string, i: nat)
    requires i < |config| && config[i].name == name && forall j :: 0 <= j < i ==> config[j].name != name
    ensures LibOf(config, name) == config[i].libPath
  {
    if i > 0 {
      LibOfFirst(config[1..], name, i - 1);
    }
  }

  function PathAt(config: seq<ConfigEntry>, i: nat): string
    requires i < |config|
  {
    LibOf(config, config[i].name)
  }

  const EMPTY := State(map[], [])

  // The first n turns of the launcher's loop; an exception ends it.
  function RegisterAll(config: seq<ConfigEntry>, n: nat, disk: map<string, Factory>): Outcome
    requires n <= |config|
  {
    if n == 0 then Outcome(EMPTY, None)
    else
      var before := RegisterAll(config, n - 1, disk);
      if before.error.Some? then before
      else Register(before.state, config[n - 1].name, PathAt(config, n - 1), disk)
  }

  // ---------------------------------------------------------------- startup

  // Component j of the configuration provides `dep` with its type.
  predicate ProvidedBy(config: seq<ConfigEntry>, disk: map<string, Factory>, j: nat, dep: Entry<string>)
    requires j < |config|
  {
    PathAt(config, j) in disk && Find(disk[PathAt(config, j)].offers, dep.key) == Some(dep.value)
  }

  ghost predicate ProvidedBefore(config: seq<ConfigEntry>, disk: map<string, Factory>, i: nat, dep: Entry<string>)
    requires i <= |config|
  {
    exists j :: 0 <= j < i && ProvidedBy(config, disk, j, dep)
  }

  // Library f would be admitted as component number i.
  ghost predicate Admissible(config: seq<ConfigEntry>, disk: map<string, Factory>, i: nat, f: Factory)
    requires i <= |config|
  {
    && f.constructs && Consistent(f.depends)
    && forall d :: 0 <= d < |f.depends| ==> ProvidedBefore(config, disk, i, f.depends[d])
  }

  ghost predicate AcceptedAt(config: seq<ConfigEntry>, disk: map<string, Factory>, i: nat)
    requires i < |config|
  {
    && (forall j :: 0 <= j < i ==> PathAt(config, j) != PathAt(config, i))
    && PathAt(config, i) in disk && Admissible(config, disk, i, disk[PathAt(config, i)])
  }

  ghost predicate AcceptedUpTo(config: seq<ConfigEntry>, disk: map<string, Factory>, n: nat)
    requires n <= |config|
  {
    forall i :: 0 <= i < n ==> AcceptedAt(config, disk, i)
  }

  // The state after n accepted turns.
  ghost predicate Admitted(config: seq<ConfigEntry>, disk: map<string, Factory>, n: nat, s: State)
    requires n <= |config|
  {
    && Sorted(s.registered)
    && (forall path :: Loaded(s.libraries, path) <==> exists j :: 0 <= j < n && PathAt(config, j) == path)
    && (forall j :: 0 <= j < n && PathAt(config, j) in disk && disk[PathAt(config, j)].offers != [] ==>
          Entry(config[j].name, ComponentOf(config[j].name, disk[PathAt(config, j)])) in s.registered)
    && (forall e :: e in s.registered ==> exists j :: 0 <= j < n && IsEntryOf(config, disk, j, e))
  }

  ghost predicate IsEntryOf(config: seq<ConfigEntry>, disk: map<string, Factory>, j: nat, e: Entry<Component>)
    requires j < |config|
  {
    && PathAt(config, j) in disk && disk[PathAt(config, j)].offers != []
    && e == Entry(config[j].name, ComponentOf(config[j].name, disk[PathAt(config, j)]))
  }

  lemma {:induction false} ComponentMatches(name: string, f: Factory, dep: Entry<string>)
    ensures Matches(ComponentOf(name, f), dep) <==> Find(f.offers, dep.key) == Some(dep.value)
  {
    FillProvidedFind(f.offers, name, dep.key);
  }

  // In an admitted state a dependency is satisfied exactly when an earlier
  // component of the configuration provides it.
  lemma {:induction false} SatisfiedIff(config: seq<ConfigEntry>, disk: map<string, Factory>, n: nat, s: State,
                                        dep: Entry<string>)
    requires n <= |config| && AcceptedUpTo(config, disk, n) && Admitted(config, disk, n, s)
    ensures Satisfied(s.registered, dep) <==> ProvidedBefore(config, disk, n, dep)
  {
    if Satisfied(s.registered, dep) {
      var k :| 0 <= k < |s.registered| && Matches(s.registered[k].value, dep);
      var e := s.registered[k];
      assert e in s.registered;
      var j :| 0 <= j < n && IsEntryOf(config, disk, j, e);
      ComponentMatches(config[j].name, disk[PathAt(config, j)], dep);
      assert ProvidedBy(config, disk, j, dep);
    }
    if ProvidedBefore(config, disk, n, dep) {
      var j :| 0 <= j < n && ProvidedBy(config, disk, j, dep);
      var f := disk[PathAt(config, j)];
      assert f.offers != [];
      var e := Entry(config[j].name, ComponentOf(config[j].name, f));
      assert e in s.registered;
      var k :| 0 <= k < |s.registered| && s.registered[k] == e;
      ComponentMatches(config[j].name, f, dep);
    }
  }

  // registerComponent returns normally exactly when the constructor does, no
  // name is asked for with two types and every dependency is registered.
  lemma {:induction false} AdmitExact(reg: Registered, name: string, f: Factory)
    requires Sorted(reg)
    ensures AdmitFactory(reg, name, f).1 == None <==>
            f.constructs && Consistent(f.depends) && AllSatisfied(reg, f.depends)
    ensures AdmitFactory(reg, name, f).1 ==
            if !AllSatisfied(reg, FillInfo(f.depends)) then Some(Unsatisfied)
            else if !Consistent(f.depends) then Some(CastFailed)
            else if !f.constructs then Some(ConstructionFailed)
            else None
    ensures AdmitFactory(reg, name, f).1.Some? ==> AdmitFactory(reg, name, f).0 == reg
  {
    FillInfoFind(f.depends, "");
    ResolveExact(reg, FillInfo(f.depends));
    if Resolve(reg, FillInfo(f.depends)).Some? {
      CastsAgree(reg, f.depends);
    }
    if Consistent(f.depends) {
      SatisfiedAlike(reg, f.depends);
    }
  }

  lemma {:induction false} AdmitIff(config: seq<ConfigEntry>, disk: map<string, Factory>, n: nat, s: State,
                                    name: string, f: Factory)
    requires n <= |config| && AcceptedUpTo(config, disk, n) && Admitted(config, disk, n, s)
    ensures AdmitFactory(s.registered, name, f).1 == None <==> Admissible(config, disk, n, f)
  {
    AdmitExact(s.registered, name, f);
    forall d | 0 <= d < |f.depends|
      ensures Satisfied(s.registered, f.depends[d]) <==> ProvidedBefore(config, disk, n, f.depends[d])
    {
      SatisfiedIff(config, disk, n, s, f.depends[d]);
    }
  }

  lemma {:induction false} SatisfiedAlike(reg: Registered, pack: Pack)
    requires Consistent(pack)
    ensures AllSatisfied(reg, FillInfo(pack)) <==> AllSatisfied(reg, pack)
  {
    SamePairs(pack);
    var deps := FillInfo(pack);
    if AllSatisfied(reg, deps) {
      forall d | 0 <= d < |pack|
        ensures Satisfied(reg, pack[d])
      {
        assert pack[d] in deps;
      }
    }
    if AllSatisfied(reg, pack) {
      forall i | 0 <= i < |deps|
        ensures Satisfied(reg, deps[i])
      {
        assert deps[i] in pack;
      }
    }
  }

  lemma {:induction false} SamePairs(pack: Pack)
    requires Consistent(pack)
    ensures forall e :: e in FillInfo(pack) <==> e in pack
  {
    FillInfoFind(pack, "");
    forall i | 0 <= i < |pack|
      ensures pack[i] in FillInfo(pack)
    {
      FillInfoFind(pack, pack[i].key);
      FindEntry(pack, pack[i].key);
      FindEntry(FillInfo(pack), pack[i].key);
    }
  }

  // Two equal names share a path, so accepted components have distinct names.
  lemma {:induction false} NamesDistinct(config: seq<ConfigEntry>, disk: map<string, Factory>, j: nat, n: nat)
    requires j < n < |config| && AcceptedAt(config, disk, n)
    ensures config[j].name != config[n].name
  {
    assert PathAt(config, j) != PathAt(config, n);
  }

  // One accepted turn keeps the description of the state.
  lemma {:induction false} AdmittedNext(config: seq<ConfigEntry>, disk: map<string, Factory>, n: nat, s: State)
    requires n < |config| && AcceptedUpTo(config, disk, n + 1) && Admitted(config, disk, n, s)
    requires Register(s, config[n].name, PathAt(config, n), disk).error == None
    ensures Admitted(config, disk, n + 1, Register(s, config[n].name, PathAt(config, n), disk).state)
  {
    var name, path := config[n].name, PathAt(config, n);
    var f, t := disk[path], Register(s, name, path, disk).state;
    var c := ComponentOf(name, f);
    forall p
      ensures Loaded(t.libraries, p) <==> exists j :: 0 <= j < n + 1 && PathAt(config, j) == p
    {
      assert Loaded(t.libraries, p) <==> Loaded(s.libraries, p) || p == path;
      if p == path {
        assert PathAt(config, n) == p;
      }
    }
    if f.offers != [] {
      NameIsNew(config, disk, n, s);
      InsertFind(s.registered, name, c, name);
      InsertMembers(s.registered, name, c);
    }
    forall e | e in t.registered
      ensures exists j :: 0 <= j < n + 1 && IsEntryOf(config, disk, j, e)
    {
      if e in s.registered {
        var j :| 0 <= j < n && IsEntryOf(config, disk, j, e);
        assert j < n + 1;
      } else {
        assert IsEntryOf(config, disk, n, e);
      }
    }
  }

  lemma {:induction false} NameIsNew(config: seq<ConfigEntry>, disk: map<string, Factory>, n: nat, s: State)
    requires n < |config| && AcceptedUpTo(config, disk, n + 1) && Admitted(config, disk, n, s)
    ensures Find(s.registered, config[n].name) == None
  {
    FindEntry(s.registered, config[n].name);
    forall k | 0 <= k < |s.registered|
      ensures s.registered[k].key != config[n].name
    {
      assert s.registered[k] in s.registered;
      var j :| 0 <= j < n && IsEntryOf(config, disk, j, s.registered[k]);
      NamesDistinct(config, disk, j, n);
    }
  }

  lemma {:induction false} InsertMembers<V>(m: seq<Entry<V>>, key: string, value: V)
    requires Find(m, key) == None
    ensures forall e :: e in Insert(m, key, value) <==> e in m || e == Entry(key, value)
  {
    if m != [] && !Less(key, m[0].key) {
      InsertMembers(m[1..], key, value);
      assert m == [m[0]] + m[1..];
    }
  }

  lemma {:induction false} TurnIff(config: seq<ConfigEntry>, disk: map<string, Factory>, n: nat, s: State)
    requires n < |config| && AcceptedUpTo(config, disk, n) && Admitted(config, disk, n, s)
    ensures Register(s, config[n].name, PathAt(config, n), disk).error == None <==> AcceptedAt(config, disk, n)
  {
    var path := PathAt(config, n);
    if path in disk {
      AdmitIff(config, disk, n, s, config[n].name, disk[path]);
    }
  }

  lemma {:induction false} AcceptedNext(config: seq<ConfigEntry>, disk: map<string, Factory>, n: nat)
    requires n < |config|
    ensures AcceptedUpTo(config, disk, n + 1) <==> AcceptedUpTo(config, disk, n) && AcceptedAt(config, disk, n)
  {
  }

  // One turn of the loop from an admitted state.
  lemma {:induction false} StartupTurn(config: seq<ConfigEntry>, disk: map<string, Factory>, n: nat, s: State)
    requires n < |config| && AcceptedUpTo(config, disk, n) && Admitted(config, disk, n, s)
    ensures Describes(config, disk, n + 1, Register(s, config[n].name, PathAt(config, n), disk))
  {
    TurnIff(config, disk, n, s);
    AcceptedNext(config, disk, n);
    if AcceptedAt(config, disk, n) {
      AdmittedNext(config, disk, n, s);
    }
  }

  // What n turns of the loop come to.
  ghost predicate Describes(config: seq<ConfigEntry>, disk: map<string, Factory>, n: nat, outcome: Outcome)
    requires n <= |config|
  {
    && (outcome.error == None <==> AcceptedUpTo(config, disk, n))
    && (outcome.error == None ==> Admitted(config, disk, n, outcome.state))
  }

  lemma {:induction false} StartupDescribed(config: seq<ConfigEntry>, disk: map<string, Factory>, n: nat)
    requires n <= |config|
    ensures Describes(config, disk, n, RegisterAll(config, n, disk))
  {
    if n == 0 {
      NothingAdmitted(config, disk);
    } else {
      var before := RegisterAll(config, n - 1, disk);
      StartupDescribed(config, disk, n - 1);
      if before.error == None {
        StartupTurn(config, disk, n - 1, before.state);
      } else {
        AcceptedNext(config, disk, n - 1);
      }
    }
  }

  // Registration of the first n components succeeds exactly when each of them
  // has a library path no earlier one has, can be imported and constructed,
  // asks for no name with two types, and has every dependency provided with
  // its type by an earlier component. Distinct names need not be assumed: two
  // equal names share a path.
  lemma {:induction false} StartupExact(config: seq<ConfigEntry>, disk: map<string, Factory>, n: nat)
    requires n <= |config|
    ensures RegisterAll(config, n, disk).error == None <==> AcceptedUpTo(config, disk, n)
    ensures RegisterAll(config, n, disk).error == None ==>
              Admitted(config, disk, n, RegisterAll(config, n, disk).state)
  {
    StartupDescribed(config, disk, n);
  }

  lemma {:induction false} NothingAdmitted(config: seq<ConfigEntry>, disk: map<string, Factory>)
    ensures Admitted(config, disk, 0, EMPTY)
  {
  }

  // ---------------------------------------------------------------- acyclic

  // Component i of an accepted configuration is bound to component j.
  ghost predicate BoundTo(config: seq<ConfigEntry>, disk: map<string, Factory>, i: nat, j: nat)
    requires i < |config| && j < |config|
  {
    && PathAt(config, i) in disk
    && var deps := FillInfo(disk[PathAt(config, i)].depends);
       var resolved := Resolve(RegisterAll(config, i, disk).state.registered, deps);
       resolved.Some? && exists key :: key in resolved.value && resolved.value[key].owner == config[j].name
  }

  // Whatever a pack is resolved to in an admitted state is owned by one of the
  // components admitted.
  lemma {:induction false} OwnerAdmitted(config: seq<ConfigEntry>, disk: map<string, Factory>, n: nat, s: State,
                                         pack: Pack, key: string)
    returns (m: nat)
    requires n <= |config| && AcceptedUpTo(config, disk, n) && Admitted(config, disk, n, s)
    requires Resolve(s.registered, FillInfo(pack)).Some? && key in Resolve(s.registered, FillInfo(pack)).value
    ensures m < n && Resolve(s.registered, FillInfo(pack)).value[key].owner == config[m].name
    ensures PathAt(config, m) in disk
    ensures Find(disk[PathAt(config, m)].offers, key) ==
            Some(Resolve(s.registered, FillInfo(pack)).value[key].typeName)
  {
    FillInfoFind(pack, "");
    var k := ResolvedOwner(s.registered, FillInfo(pack), key);
    assert s.registered[k] in s.registered;
    m :| 0 <= m < n && IsEntryOf(config, disk, m, s.registered[k]);
    FillProvidedFind(disk[PathAt(config, m)].offers, config[m].name, key);
  }

  lemma {:induction false} ResolvedOwner(reg: Registered, deps: seq<Entry<string>>, key: string) returns (k: nat)
    requires Sorted(reg) && Sorted(deps) && Resolve(reg, deps).Some? && key in Resolve(reg, deps).value
    ensures k < |reg| && Find(reg[k].value.provided, key) == Some(Resolve(reg, deps).value[key])
  {
    var resolved := Resolve(reg, deps).value;
    ResolveExact(reg, deps);
    assert Requests(deps, key);
    var d :| 0 <= d < |deps| && deps[d].key == key;
    assert BoundToLeast(reg, deps[d], resolved);
    k :| LeastProvider(reg, deps[d], k) && Find(reg[k].value.provided, key) == Some(resolved[key]);
  }

  lemma {:induction false} BoundToEarlier(config: seq<ConfigEntry>, disk: map<string, Factory>, i: nat, j: nat)
    requires i < |config| && j < |config| && RegisterAll(config, |config|, disk).error == None
             && BoundTo(config, disk, i, j)
    ensures j < i
  {
    StartupExact(config, disk, |config|);
    StartupExact(config, disk, i);
    var s, pack := RegisterAll(config, i, disk).state, disk[PathAt(config, i)].depends;
    var resolved := Resolve(s.registered, FillInfo(pack)).value;
    var key :| key in resolved && resolved[key].owner == config[j].name;
    var m := OwnerAdmitted(config, disk, i, s, pack, key);
    if m < j {
      NamesDistinct(config, disk, m, j);
    }
  }

  // A component another one is bound to offers an interface.
  lemma {:induction false} ProviderOffers(config: seq<ConfigEntry>, disk: map<string, Factory>, i: nat, j: nat)
    requires i < |config| && j < |config| && RegisterAll(config, |config|, disk).error == None
             && BoundTo(config, disk, i, j)
    ensures PathAt(config, j) in disk && disk[PathAt(config, j)].offers != []
  {
    StartupExact(config, disk, |config|);
    StartupExact(config, disk, i);
    var s, pack := RegisterAll(config, i, disk).state, disk[PathAt(config, i)].depends;
    var resolved := Resolve(s.registered, FillInfo(pack)).value;
    var key :| key in resolved && resolved[key].owner == config[j].name;
    var m := OwnerAdmitted(config, disk, i, s, pack, key);
    SameName(config, disk, m, j);
  }

  lemma {:induction false} SameName(config: seq<ConfigEntry>, disk: map<string, Factory>, m: nat, j: nat)
    requires m < |config| && j < |config| && AcceptedUpTo(config, disk, |config|) && config[m].name == config[j].name
    ensures m == j
  {
    if m < j {
      NamesDistinct(config, disk, m, j);
    } else if j < m {
      NamesDistinct(config, disk, j, m);
    }
  }

  // In an accepted configuration a dependency with a single provider before
  // it is bound to that one.
  lemma {:induction false} SoleProviderBound(config: seq<ConfigEntry>, disk: map<string, Factory>, i: nat, j: nat,
                                             d: nat)
    requires i < |config| && j < |config| && RegisterAll(config, |config|, disk).error == None
    requires PathAt(config, i) in disk && d < |disk[PathAt(config, i)].depends|
    requires forall m :: 0 <= m < i && ProvidedBy(config, disk, m, disk[PathAt(config, i)].depends[d]) ==> m == j
    ensures BoundTo(config, disk, i, j)
  {
    StartupExact(config, disk, |config|);
    StartupExact(config, disk, i);
    var s, pack := RegisterAll(config, i, disk).state, disk[PathAt(config, i)].depends;
    assert AcceptedAt(config, disk, i);
    AdmitIff(config, disk, i, s, config[i].name, disk[PathAt(config, i)]);
    ResolvedType(s.registered, pack, d);
    FindEntry(pack, pack[d].key);
    var m := OwnerAdmitted(config, disk, i, s, pack, pack[d].key);
    assert ProvidedBy(config, disk, m, pack[d]);
  }

  // A walk along the dependencies.
  ghost predicate Walk(config: seq<ConfigEntry>, disk: map<string, Factory>, walk: seq<nat>) {
    |walk| >= 2 ==>
      && walk[0] < |config| && walk[1] < |config| && BoundTo(config, disk, walk[0], walk[1])
      && Walk(config, disk, walk[1..])
  }

  // Every walk along the dependencies of an accepted configuration goes
  // strictly down in registration order, so none returns to its start.
  lemma {:induction false} DependenciesAcyclic(config: seq<ConfigEntry>, disk: map<string, Factory>, walk: seq<nat>)
    requires RegisterAll(config, |config|, disk).error == None
    requires |walk| >= 2 && Walk(config, disk, walk)
    ensures walk[|walk| - 1] < walk[0]
  {
    BoundToEarlier(config, disk, walk[0], walk[1]);
    if |walk| > 2 {
      DependenciesAcyclic(config, disk, walk[1..]);
    }
  }
}
