// The launcher: register, initialise and start, then serve error reports.
module Launcher {
  import opened Common
  import opened OrderedMap
  import opened Registry
  import opened ErrorPipeline
  import opened ComponentManager

  // What startApplication has come to when the script of pops is used up.
  datatype Run = Failure | Success | Waiting

  // The component named final_haven, if registered, with the interface
  // FinalHaven of the launcher's own interface type.
  function FinalHavenInterface(reg: Registered): Option<Option<Interface>> {
    match Find(reg, "final_haven")
    case None => None
    case Some(c) => Some(Find(c.provided, "FinalHaven"))
  }

  const FINAL_HAVEN_TYPE := "System::IFinalHaven"

  function Application(config: seq<ConfigEntry>, disk: map<string, Factory>, script: Script): (Run, seq<HbeError>) {
    var outcome := RegisterAll(config, |config|, disk);
    var reg := outcome.state.registered;
    if outcome.error.Some? || StartPhase(reg, |reg|).threw then (Failure, [])
    else
      match FinalHavenInterface(reg)
      case None => (Failure, [])
      case Some(None) => (Success, [])
      case Some(Some(interface)) =>
        if interface.typeName != FINAL_HAVEN_TYPE then (Success, [])
        else
          var served := Serve([], script);
          (if served.exited then Success else Waiting, served.handled)
  }

  // Component i is the error sink the launcher listens to.
  ghost predicate IsSink(config: seq<ConfigEntry>, disk: map<string, Factory>, i: nat)
    requires i < |config|
  {
    && config[i].name == "final_haven" && PathAt(config, i) in disk
    && Find(disk[PathAt(config, i)].offers, "FinalHaven") == Some(FINAL_HAVEN_TYPE)
  }

  // A component named final_haven is registered.
  ghost predicate HasHaven(config: seq<ConfigEntry>, disk: map<string, Factory>) {
    exists i :: 0 <= i < |config| && config[i].name == "final_haven" && Offers(config, disk, i)
  }

  // And it offers the interface the launcher listens to.
  ghost predicate HasSink(config: seq<ConfigEntry>, disk: map<string, Factory>) {
    exists i :: 0 <= i < |config| && IsSink(config, disk, i)
  }

  // The application fails exactly when the configuration is not accepted, a
  // registered component throws on init or start, or no final_haven is
  // registered. Otherwise it ends at once, handling nothing, unless
  // final_haven is the error sink; then it handles exactly the reports through
  // the first fatal one and succeeds, or goes on waiting if there is none.
  lemma {:induction false} ApplicationExact(config: seq<ConfigEntry>, disk: map<string, Factory>, script: Script,
                                            k: nat)
    requires k >= |Concat(script)|
    ensures var all := Concat(script);
            Application(config, disk, script + Quiet(k)) ==
            if !AcceptedUpTo(config, disk, |config|) || !NoneThrows(config, disk) || !HasHaven(config, disk) then
              (Failure, [])
            else if !HasSink(config, disk) then (Success, [])
            else (if SomeFatal(all) then Success else Waiting, ThroughFatal(all))
  {
    StartsUpExact(config, disk);
    if StartsUp(config, disk) {
      HavenExact(config, disk);
      ServeCompletes([], script, k);
      assert [] + Concat(script) == Concat(script);
    }
  }

  // The configuration is accepted, starts up and has the error sink.
  ghost predicate Serves(config: seq<ConfigEntry>, disk: map<string, Factory>) {
    AcceptedUpTo(config, disk, |config|) && NoneThrows(config, disk) && HasSink(config, disk)
  }

  // Reports at system_level and component_level are all handled, in order, and
  // the application goes on waiting.
  lemma {:induction false} GoesOnWaiting(config: seq<ConfigEntry>, disk: map<string, Factory>, script: Script, k: nat)
    requires Serves(config, disk) && k >= |Concat(script)|
    requires var all := Concat(script);
             forall j :: 0 <= j < |all| ==> all[j].level == SystemLevel || all[j].level == ComponentLevel
    ensures Application(config, disk, script + Quiet(k)) == (Waiting, Concat(script))
  {
    SinkIsHaven(config, disk);
    ApplicationExact(config, disk, script, k);
    NoneFatal(Concat(script));
  }

  // The first report at user_level or critical_level is the last one handled,
  // and ends the application.
  lemma {:induction false} EndsAtFirstFatal(config: seq<ConfigEntry>, disk: map<string, Factory>, script: Script,
                                            k: nat, i: nat)
    requires Serves(config, disk) && k >= |Concat(script)|
    requires var all := Concat(script);
             && i < |all| && (all[i].level == UserLevel || all[i].level == CriticalLevel)
             && forall j :: 0 <= j < i ==> all[j].level == SystemLevel || all[j].level == ComponentLevel
    ensures Application(config, disk, script + Quiet(k)) == (Success, Concat(script)[..i + 1])
  {
    SinkIsHaven(config, disk);
    ApplicationExact(config, disk, script, k);
    ThroughFatalAt(Concat(script), i);
  }

  lemma {:induction false} SinkIsHaven(config: seq<ConfigEntry>, disk: map<string, Factory>)
    requires HasSink(config, disk)
    ensures HasHaven(config, disk)
  {
    var i :| 0 <= i < |config| && IsSink(config, disk, i);
    assert Offers(config, disk, i);
  }

  // In particular, for any script of pops.
  lemma {:induction false} FailsExactly(config: seq<ConfigEntry>, disk: map<string, Factory>, script: Script)
    ensures Application(config, disk, script).0 == Failure <==>
            !AcceptedUpTo(config, disk, |config|) || !NoneThrows(config, disk) || !HasHaven(config, disk)
  {
    StartsUpExact(config, disk);
    if StartsUp(config, disk) {
      HavenExact(config, disk);
    }
  }

  lemma {:induction false} HavenExact(config: seq<ConfigEntry>, disk: map<string, Factory>)
    requires StartsUp(config, disk)
    ensures var found := FinalHavenInterface(RegisterAll(config, |config|, disk).state.registered);
            && (found.Some? <==> HasHaven(config, disk))
            && (found.Some? && found.value.Some? && found.value.value.typeName == FINAL_HAVEN_TYPE <==>
                  HasSink(config, disk))
  {
    StartupExact(config, disk, |config|);
    var reg := RegisterAll(config, |config|, disk).state.registered;
    FindEntry(reg, "final_haven");
    if Find(reg, "final_haven").Some? {
      var e := Entry("final_haven", Find(reg, "final_haven").value);
      var j :| 0 <= j < |config| && IsEntryOf(config, disk, j, e);
      assert Offers(config, disk, j);
      HavenAt(config, disk, j);
      if HasSink(config, disk) {
        var i :| 0 <= i < |config| && IsSink(config, disk, i);
        SameName(config, disk, i, j);
      }
    }
    if HasHaven(config, disk) {
      var i :| 0 <= i < |config| && config[i].name == "final_haven" && Offers(config, disk, i);
      HavenAt(config, disk, i);
    }
    if HasSink(config, disk) {
      var i :| 0 <= i < |config| && IsSink(config, disk, i);
      assert disk[PathAt(config, i)].offers != [];
      HavenAt(config, disk, i);
    }
  }

  lemma {:induction false} HavenAt(config: seq<ConfigEntry>, disk: map<string, Factory>, i: nat)
    requires StartsUp(config, disk) && i < |config| && config[i].name == "final_haven" && Offers(config, disk, i)
    ensures var found := FinalHavenInterface(RegisterAll(config, |config|, disk).state.registered);
            && found.Some?
            && (found.value.Some? && found.value.value.typeName == FINAL_HAVEN_TYPE <==> IsSink(config, disk, i))
  {
    var k := RegisteredAt(config, disk, i);
    FindAt(RegisterAll(config, |config|, disk).state.registered, k);
    FillProvidedFind(disk[PathAt(config, i)].offers, "final_haven", "FinalHaven");
  }

  class CLauncher {
    const manager: CComponentManager
    const finalHaven: CFinalHaven
    // The reports handled so far.
    var handled: seq<HbeError>

    constructor ()
      ensures manager.Snapshot() == EMPTY && finalHaven.errQueue.queue == [] && handled == []
      ensures fresh(manager) && fresh(manager.loader) && fresh(finalHaven.errQueue)
    {
      manager := new CComponentManager();
      finalHaven := new CFinalHaven();
      handled := [];
    }

    // The registration loop.
    method RegisterComponents(config: seq<ConfigEntry>, disk: map<string, Factory>) returns (error: Option<Error>)
      requires manager.Snapshot() == EMPTY
      modifies manager, manager.loader
      ensures var outcome := RegisterAll(config, |config|, disk);
              manager.Snapshot() == outcome.state && error == outcome.error
    {
      error := None;
      var i := 0;
      while i < |config| && error == None
        invariant i <= |config|
        invariant var outcome := RegisterAll(config, i, disk);
                  manager.Snapshot() == outcome.state && error == outcome.error
      {
        error := manager.RegisterComponent(config[i].name, LibOf(config, config[i].name), disk);
        i := i + 1;
      }
      RegisterStops(config, i, disk);
    }

    // The exit loop, over the pops of the script.
    method ExitLoop(script: Script) returns (exited: bool)
      modifies this`handled, finalHaven.errQueue
      ensures var served := Serve(old(finalHaven.errQueue.queue), script);
              handled == old(handled) + served.handled && exited == served.exited
              && finalHaven.errQueue.queue == served.queue
    {
      exited := false;
      var i := 0;
      assert script[0..] == script;
      ghost var start := finalHaven.errQueue.queue;
      while !exited && i < |script|
        invariant i <= |script|
        invariant var served := Serve(start, script);
                  var rest := if exited then Served([], finalHaven.errQueue.queue, true)
                              else Serve(finalHaven.errQueue.queue, script[i..]);
                  && old(handled) + served.handled == handled + rest.handled
                  && served.queue == rest.queue && served.exited == rest.exited
        decreases |script| - i
      {
        var action: Option<HbeError>;
        action, i := finalHaven.WaitAction(script, i);
        if action.Some? {
          handled := handled + [action.value];
          match action.value.level
          case SystemLevel =>
          case ComponentLevel =>
          case _ => exited := true;
        }
      }
    }

    method StartApplication(config: seq<ConfigEntry>, disk: map<string, Factory>, script: Script) returns (run: Run)
      requires manager.Snapshot() == EMPTY && finalHaven.errQueue.queue == [] && handled == []
      modifies this, manager, manager.loader, finalHaven.errQueue
      ensures (run, handled) == Application(config, disk, script)
    {
      var error := RegisterComponents(config, disk);
      if error.Some? {
        return Failure;
      }
      var progress := manager.InitAndStartComponents();
      if progress.threw {
        return Failure;
      }
      var component := Find(manager.registered, "final_haven");
      if component.None? {
        return Failure;
      }
      var interface := Find(component.value.provided, "FinalHaven");
      if interface.Some? && interface.value.typeName == FINAL_HAVEN_TYPE {
        var exited := ExitLoop(script);
        assert handled == Serve([], script).handled;
        return if exited then Success else Waiting;
      }
      run := Success;
    }
  }

  // An exception ends the registration loop.
  lemma {:induction false} RegisterStops(config: seq<ConfigEntry>, n: nat, disk: map<string, Factory>)
    requires n <= |config| && (n == |config| || RegisterAll(config, n, disk).error.Some?)
    ensures RegisterAll(config, |config|, disk) == RegisterAll(config, n, disk)
    decreases |config| - n
  {
    if n < |config| {
      RegisterStops(config, n + 1, disk);
    }
  }
}
