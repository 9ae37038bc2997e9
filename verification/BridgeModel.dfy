// The whole bridge over runs of watchdog ticks and messages, and its projection
// onto the watchdog automaton of each single device.
module BridgeModel {
  import opened Common
  import opened DeviceTable
  import opened Routing
  import Retry
  import Sweep
  import Text
  import Watchdog

  type Blocks = map<string, Retry.Block>

  // ---------------------------------------------------------------- messages

  datatype Effect = Effect(blocks: Blocks, pubs: seq<Publication>, outcome: Outcome)

  // What the fields of a message do once the device was found.
  function RouteFields(dev: Device, msg: string): Routed {
    var data := Text.Split(msg, ',');
    if |data| == |dev.inputMapping| then RouteInputs(dev.inputMapping, data) else Routed([], Completed)
  }

  // One turn of the device loop; `now` is the clock reading of that turn.
  function RouteRow(dev: Device, blocks: Blocks, topic: string, msg: string, now: int): Effect {
    if topic != dev.inputTopic then
      Effect(blocks, RouteOutputs(dev.outputMapping, dev.outputTopic, topic, msg), Completed)
    else if dev.devName !in blocks then Effect(blocks, [], Completed)
    else
      var routed := RouteFields(dev, msg);
      Effect(blocks[dev.devName := Rearmed(dev, now)],
             routed.pubs + if routed.outcome == Completed then [Status(dev.devName, dev.statusTopic, "ok")] else [],
             routed.outcome)
  }

  // The first n turns; an exception ends the loop.
  function RouteTable(table: seq<Device>, n: nat, blocks: Blocks, topic: string, msg: string, clock: seq<int>): Effect
    requires n <= |table| == |clock|
  {
    if n == 0 then Effect(blocks, [], Completed)
    else
      var before := RouteTable(table, n - 1, blocks, topic, msg, clock);
      if before.outcome != Completed then before
      else
        var row := RouteRow(table[n - 1], before.blocks, topic, msg, clock[n - 1]);
        row.(pubs := before.pubs + row.pubs)
  }

  // A message touches only the blocks of devices listening on its topic, and
  // never adds or removes one.
  lemma {:induction false} MessageFrame(table: seq<Device>, n: nat, blocks: Blocks, topic: string, msg: string,
                                        clock: seq<int>)
    requires n <= |table| == |clock|
    ensures var after := RouteTable(table, n, blocks, topic, msg, clock).blocks;
            && after.Keys == blocks.Keys
            && forall d :: d in blocks && after[d] != blocks[d] ==>
                 exists i :: 0 <= i < n && table[i].devName == d && topic == table[i].inputTopic
  {
    if n > 0 {
      MessageFrame(table, n - 1, blocks, topic, msg, clock);
    }
  }

  // Once a row threw, the rows after it do nothing.
  lemma {:induction false} ThrowSkipsRest(table: seq<Device>, i: nat, n: nat, blocks: Blocks, topic: string,
                                          msg: string, clock: seq<int>)
    requires i < n <= |table| == |clock| && Reached(table, i, blocks, topic, msg, clock)
    requires topic == table[i].inputTopic && table[i].devName in blocks
    requires RouteFields(table[i], msg).outcome != Completed
    ensures RouteTable(table, n, blocks, topic, msg, clock) ==
            var before := RouteTable(table, i, blocks, topic, msg, clock);
            Effect(before.blocks[table[i].devName := Retry.Block(0, clock[i] + 1000 * table[i].nodeTimeoutInSec)],
                   before.pubs + RouteFields(table[i], msg).pubs, RouteFields(table[i], msg).outcome)
  {
    if n == i + 1 {
      MessageFrame(table, i, blocks, topic, msg, clock);
      assert RouteFields(table[i], msg).pubs + [] == RouteFields(table[i], msg).pubs;
    } else {
      ThrowSkipsRest(table, i, n - 1, blocks, topic, msg, clock);
    }
  }

  // What a message with a field for every channel publishes, spelled out: k is
  // the first mapped input channel and j the first place of its mapping with
  // the value of its field.
  lemma {:induction false} FieldsPublished(dev: Device, msg: string, k: nat, j: nat)
    requires var chs, data := dev.inputMapping, Text.Split(msg, ',');
             && |data| == |chs| && NumbersInRange(chs, |chs|) && k < |chs| && chs[k].valueMapping != []
             && (forall i :: 0 <= i < k ==> chs[i].valueMapping == [])
             && (Text.Stoi(data[chs[k].number]).Some? ==>
                   FirstValueAt(chs[k].valueMapping, Text.Stoi(data[chs[k].number]).value, j))
    ensures var data, ch := Text.Split(msg, ','), dev.inputMapping[k];
            var raw := RawPubs(dev.inputMapping[..k], data);
            RouteFields(dev, msg) ==
            if Text.Stoi(data[ch.number]).None? then Routed(raw, Threw)
            else if j < |ch.valueMapping| then Routed(raw + [Input(ch.mqttTopic, ch.valueMapping[j].text)], Completed)
            else Routed(raw, Completed)
  {
    InputsPublished(dev.inputMapping, Text.Split(msg, ','), k, j);
  }

  // A message without mapped channels publishes every field as it is; one with
  // another number of fields publishes none.
  lemma {:induction false} PlainFieldsPublished(dev: Device, msg: string)
    requires NumbersInRange(dev.inputMapping, |dev.inputMapping|)
    requires forall i :: 0 <= i < |dev.inputMapping| ==> dev.inputMapping[i].valueMapping == []
    ensures var data := Text.Split(msg, ',');
            RouteFields(dev, msg) ==
            Routed(if |data| == |dev.inputMapping| then RawPubs(dev.inputMapping, data) else [], Completed)
  {
    if |Text.Split(msg, ',')| == |dev.inputMapping| {
      InputsExact(dev.inputMapping, Text.Split(msg, ','), |dev.inputMapping|);
    }
  }

  lemma {:induction false} WrongCountPublishesNothing(dev: Device, msg: string)
    requires |Text.Split(msg, ',')| != |dev.inputMapping|
    ensures RouteFields(dev, msg) == Routed([], Completed)
  {
  }

  // Row i is reached: no earlier row threw.
  predicate Reached(table: seq<Device>, i: nat, blocks: Blocks, topic: string, msg: string, clock: seq<int>)
    requires i <= |table| == |clock|
  {
    RouteTable(table, i, blocks, topic, msg, clock).outcome == Completed
  }

  // ---------------------------------------------------------------- statuses

  function StatusOf(p: Publication): Watchdog.Status
    requires p.Status?
  {
    if p.payload == "ok" then Watchdog.Okay else Watchdog.Error
  }

  // The status shown for d after the publications, `shown` before them.
  function Shown(shown: Watchdog.Status, pubs: seq<Publication>, d: string): Watchdog.Status {
    if pubs == [] then shown
    else
      var last := pubs[|pubs| - 1];
      if last.Status? && last.device == d then StatusOf(last) else Shown(shown, pubs[..|pubs| - 1], d)
  }

  lemma {:induction false} ShownConcat(shown: Watchdog.Status, a: seq<Publication>, b: seq<Publication>, d: string)
    ensures Shown(shown, a + b, d) == Shown(Shown(shown, a, d), b, d)
  {
    if b == [] {
      assert a + b == a;
    } else {
      ShownConcat(shown, a, b[..|b| - 1], d);
      assert (a + b)[..|a + b| - 1] == a + b[..|b| - 1];
    }
  }

  ghost predicate NoStatusFor(pubs: seq<Publication>, d: string) {
    forall i :: 0 <= i < |pubs| ==> !(pubs[i].Status? && pubs[i].device == d)
  }

  lemma {:induction false} ShownUnchanged(shown: Watchdog.Status, pubs: seq<Publication>, d: string)
    requires NoStatusFor(pubs, d)
    ensures Shown(shown, pubs, d) == shown
  {
    if pubs != [] {
      ShownUnchanged(shown, pubs[..|pubs| - 1], d);
    }
  }

  // The device a status publication is about.
  function Subject(p: Publication): Option<string> {
    if p.Status? then Some(p.device) else None
  }

  lemma {:induction false} ShownByStatuses(shown: Watchdog.Status, pubs: seq<Publication>, d: string)
    ensures var own := Sweep.Of(Subject, pubs, d);
            && (forall i :: 0 <= i < |own| ==> own[i].Status?)
            && Shown(shown, pubs, d) == if own == [] then shown else StatusOf(own[|own| - 1])
  {
    if pubs != [] {
      ShownByStatuses(shown, pubs[..|pubs| - 1], d);
    }
  }

  lemma {:induction false} InputsSendNoStatus(chs: seq<Channel>, data: seq<string>, d: string)
    ensures NoStatusFor(RouteInputs(chs, data).pubs, d)
  {
    if chs != [] {
      InputsSendNoStatus(chs[1..], data, d);
    }
  }

  lemma {:induction false} OutputsSendNoStatus(chs: seq<Channel>, outTopic: string, topic: string, msg: string,
                                               d: string)
    ensures NoStatusFor(RouteOutputs(chs, outTopic, topic, msg), d)
  {
    if chs != [] {
      OutputsSendNoStatus(chs[1..], outTopic, topic, msg, d);
    }
  }

  // ---------------------------------------------------------------- system

  // Device blocks, and the last status sent for each device.
  datatype System = System(blocks: Blocks, shown: map<string, Watchdog.Status>)

  // The statuses shown after everything in `log`.
  function ShownMap(blocks: Blocks, log: seq<Publication>): map<string, Watchdog.Status> {
    map d | d in blocks :: Shown(Watchdog.Unset, log, d)
  }

  ghost predicate Fits(table: seq<Device>, s: System) {
    && s.shown.Keys == s.blocks.Keys
    && forall i :: 0 <= i < |table| ==> table[i].devName in s.blocks
  }

  // Update carries one clock reading for every turn of the device loop.
  datatype Event = Tick(now: int) | Update(topic: string, msg: string, clock: seq<int>)

  predicate IsExhausted(table: seq<Device>, d: string, block: Retry.Block, now: int) {
    match GetGwtItem(table, d)
    case None => false
    case Some(dev) => Retry.Act(PolicyOf(dev), block, Retry.Check(now)) == Retry.Exhausted
  }

  function TickBlock(table: seq<Device>, d: string, block: Retry.Block, now: int): Retry.Block {
    match GetGwtItem(table, d)
    case None => block
    case Some(dev) => Retry.Step(PolicyOf(dev), block, Retry.Check(now))
  }

  // What the watchdog publishes for one device.
  function ErrorFor(table: seq<Device>, d: string, block: Retry.Block, now: int): seq<Publication> {
    if IsExhausted(table, d, block, now) then [Status(d, GetGwtItem(table, d).value.statusTopic, "error")] else []
  }

  function OnTick(table: seq<Device>, s: System, now: int): System
    requires s.shown.Keys == s.blocks.Keys
  {
    System(map d | d in s.blocks :: TickBlock(table, d, s.blocks[d], now),
           map d | d in s.blocks :: if IsExhausted(table, d, s.blocks[d], now) then Watchdog.Error else s.shown[d])
  }

  function OnUpdate(table: seq<Device>, s: System, topic: string, msg: string, clock: seq<int>): System
    requires s.shown.Keys == s.blocks.Keys && |clock| == |table|
  {
    var effect := RouteTable(table, |table|, s.blocks, topic, msg, clock);
    System(effect.blocks, map d | d in s.shown :: Shown(s.shown[d], effect.pubs, d))
  }

  // The watchdog pass as a loop over the blocks.
  function WatchdogRule(table: seq<Device>, now: int): Sweep.Rule<string, Retry.Block, Publication> {
    Sweep.Rule((d, block) => TickBlock(table, d, block, now), (d, block) => ErrorFor(table, d, block, now), Subject)
  }

  // What a pass leaves on the status topic of d.
  lemma {:induction false} TickShows(table: seq<Device>, d: string, block: Retry.Block, now: int,
                                     log: seq<Publication>, added: seq<Publication>)
    requires Sweep.Of(Subject, added, d) == ErrorFor(table, d, block, now)
    ensures Shown(Watchdog.Unset, log + added, d) ==
            if IsExhausted(table, d, block, now) then Watchdog.Error else Shown(Watchdog.Unset, log, d)
  {
    ShownConcat(Watchdog.Unset, log, added, d);
    ShownByStatuses(Shown(Watchdog.Unset, log, d), added, d);
  }

  lemma {:induction false} PassShows(table: seq<Device>, before: Blocks, now: int, blocks: Blocks,
                                     log: seq<Publication>, added: seq<Publication>, d: string)
    requires Sweep.Swept(WatchdogRule(table, now), before, {}, blocks, added) && d in before
    ensures Shown(Watchdog.Unset, log + added, d) ==
            if IsExhausted(table, d, before[d], now) then Watchdog.Error else Shown(Watchdog.Unset, log, d)
  {
    var r := WatchdogRule(table, now);
    Sweep.SweepDone(r, before, blocks, added);
    assert Sweep.Of(Subject, added, d) == r.emit(d, before[d]) == ErrorFor(table, d, before[d], now);
    TickShows(table, d, before[d], now, log, added);
  }

  lemma {:induction false} PassBlocks(table: seq<Device>, before: Blocks, now: int, blocks: Blocks,
                                      added: seq<Publication>)
    requires Sweep.Swept(WatchdogRule(table, now), before, {}, blocks, added)
    ensures blocks == map d | d in before :: TickBlock(table, d, before[d], now)
  {
    Sweep.SweepDone(WatchdogRule(table, now), before, blocks, added);
  }

  // A finished pass is one tick of the system.
  lemma {:induction false} PassIsTick(table: seq<Device>, before: Blocks, now: int, blocks: Blocks,
                                      log: seq<Publication>, added: seq<Publication>)
    requires Sweep.Swept(WatchdogRule(table, now), before, {}, blocks, added)
    ensures System(blocks, ShownMap(blocks, log + added)) == OnTick(table, System(before, ShownMap(before, log)), now)
  {
    PassBlocks(table, before, now, blocks, added);
    forall d | d in before
      ensures Shown(Watchdog.Unset, log + added, d) ==
              if IsExhausted(table, d, before[d], now) then Watchdog.Error else Shown(Watchdog.Unset, log, d)
    {
      PassShows(table, before, now, blocks, log, added, d);
    }
  }

  // A routed message is one update of the system.
  lemma {:induction false} RouteIsUpdate(table: seq<Device>, blocks: Blocks, log: seq<Publication>, topic: string,
                                         msg: string, clock: seq<int>)
    requires |clock| == |table|
    ensures var effect := RouteTable(table, |table|, blocks, topic, msg, clock);
            System(effect.blocks, ShownMap(effect.blocks, log + effect.pubs)) ==
            OnUpdate(table, System(blocks, ShownMap(blocks, log)), topic, msg, clock)
  {
    MessageFrame(table, |table|, blocks, topic, msg, clock);
    var effect := RouteTable(table, |table|, blocks, topic, msg, clock);
    var t := OnUpdate(table, System(blocks, ShownMap(blocks, log)), topic, msg, clock);
    forall d | d in blocks
      ensures ShownMap(effect.blocks, log + effect.pubs)[d] == t.shown[d]
    {
      ShownConcat(Watchdog.Unset, log, effect.pubs, d);
    }
    assert ShownMap(effect.blocks, log + effect.pubs) == t.shown;
  }

  predicate Proper(table: seq<Device>, e: Event) {
    e.Update? ==> |e.clock| == |table|
  }

  function Next(table: seq<Device>, s: System, e: Event): System
    requires s.shown.Keys == s.blocks.Keys && Proper(table, e)
    ensures Next(table, s, e).shown.Keys == Next(table, s, e).blocks.Keys == s.blocks.Keys
  {
    match e
    case Tick(now) => OnTick(table, s, now)
    case Update(topic, msg, clock) =>
      MessageFrame(table, |table|, s.blocks, topic, msg, clock);
      OnUpdate(table, s, topic, msg, clock)
  }

  ghost predicate AllProper(table: seq<Device>, es: seq<Event>) {
    forall i :: 0 <= i < |es| ==> Proper(table, es[i])
  }

  function After(table: seq<Device>, s: System, es: seq<Event>): (r: System)
    requires s.shown.Keys == s.blocks.Keys && AllProper(table, es)
    ensures r.shown.Keys == r.blocks.Keys == s.blocks.Keys
  {
    if es == [] then s else Next(table, After(table, s, es[..|es| - 1]), es[|es| - 1])
  }

  // ---------------------------------------------------------------- projection

  function Project(s: System, d: string): Watchdog.Watch
    requires d in s.blocks && d in s.shown
  {
    Watchdog.Watch(s.blocks[d], s.shown[d])
  }

  // What device i sees of an event: a check, a message of its own, or nothing.
  function SignalOf(table: seq<Device>, i: nat, s: System, e: Event): seq<Watchdog.Signal>
    requires i < |table| && Proper(table, e)
  {
    match e
    case Tick(now) => [Watchdog.Check(now)]
    case Update(topic, msg, clock) =>
      if topic == table[i].inputTopic && Reached(table, i, s.blocks, topic, msg, clock) then
        [Watchdog.Message(clock[i], RouteFields(table[i], msg).outcome != Completed)]
      else []
  }

  // The first n turns of a message, seen from device i.
  lemma {:induction false} RowsSeenBy(table: seq<Device>, i: nat, n: nat, s: System, topic: string, msg: string,
                                      clock: seq<int>)
    requires DistinctNames(table) && Fits(table, s) && i < |table| == |clock| && n <= |table|
    ensures var d, effect := table[i].devName, RouteTable(table, n, s.blocks, topic, msg, clock);
            var seen := i < n && topic == table[i].inputTopic && Reached(table, i, s.blocks, topic, msg, clock);
            && d in effect.blocks
            && effect.blocks[d] == (if seen then Rearmed(table[i], clock[i]) else s.blocks[d])
            && Shown(s.shown[d], effect.pubs, d) ==
               (if seen && RouteFields(table[i], msg).outcome == Completed then Watchdog.Okay else s.shown[d])
  {
    if n > 0 {
      RowsSeenBy(table, i, n - 1, s, topic, msg, clock);
      var before := RouteTable(table, n - 1, s.blocks, topic, msg, clock);
      if before.outcome == Completed {
        MessageFrame(table, n - 1, s.blocks, topic, msg, clock);
        RowSeenBy(table, i, n - 1, before.blocks, s.shown[table[i].devName], before.pubs, topic, msg, clock[n - 1]);
      } else if n - 1 == i {
        assert !Reached(table, i, s.blocks, topic, msg, clock);
      }
    }
  }

  // One turn, of device k, seen from device i.
  lemma {:induction false} RowSeenBy(table: seq<Device>, i: nat, k: nat, blocks: Blocks, first: Watchdog.Status,
                                     pubs: seq<Publication>,
                  topic: string, msg: string, now: int)
    requires DistinctNames(table) && i < |table| && k < |table|
    requires table[i].devName in blocks && table[k].devName in blocks
    ensures var d, row := table[i].devName, RouteRow(table[k], blocks, topic, msg, now);
            var seen := k == i && topic == table[i].inputTopic;
            && d in row.blocks
            && row.blocks[d] == (if seen then Rearmed(table[i], now) else blocks[d])
            && Shown(first, pubs + row.pubs, d) ==
               (if seen && RouteFields(table[i], msg).outcome == Completed then Watchdog.Okay
                else Shown(first, pubs, d))
  {
    var d, row := table[i].devName, RouteRow(table[k], blocks, topic, msg, now);
    ShownConcat(first, pubs, row.pubs, d);
    if topic == table[k].inputTopic {
      var data, routed := Text.Split(msg, ','), RouteFields(table[k], msg);
      InputsSendNoStatus(table[k].inputMapping, data, d);
      assert NoStatusFor(routed.pubs, d);
      if k != i || routed.outcome != Completed {
        assert table[k].devName == d ==> k == i;
        assert NoStatusFor(row.pubs, d);
        ShownUnchanged(Shown(first, pubs, d), row.pubs, d);
      } else {
        assert row.pubs[|row.pubs| - 1] == Status(d, table[k].statusTopic, "ok");
      }
    } else {
      OutputsSendNoStatus(table[k].outputMapping, table[k].outputTopic, topic, msg, d);
      ShownUnchanged(Shown(first, pubs, d), row.pubs, d);
    }
  }

  lemma {:induction false} ProjectStep(table: seq<Device>, i: nat, s: System, e: Event)
    requires DistinctNames(table) && Fits(table, s) && i < |table| && Proper(table, e)
    ensures Project(Next(table, s, e), table[i].devName) ==
            Watchdog.After(PolicyOf(table[i]), Project(s, table[i].devName), SignalOf(table, i, s, e))
  {
    var p, d, w := PolicyOf(table[i]), table[i].devName, Project(s, table[i].devName);
    match e
    case Tick(now) =>
      LookupAgrees(table, i);
      AfterOne(p, w, Watchdog.Check(now));
    case Update(topic, msg, clock) =>
      RowsSeenBy(table, i, |table|, s, topic, msg, clock);
      if topic == table[i].inputTopic && Reached(table, i, s.blocks, topic, msg, clock) {
        AfterOne(p, w, Watchdog.Message(clock[i], RouteFields(table[i], msg).outcome != Completed));
      }
  }

  lemma {:induction false} AfterOne(p: Retry.Policy, w: Watchdog.Watch, s: Watchdog.Signal)
    ensures Watchdog.After(p, w, [s]) == Watchdog.Step(p, w, s)
  {
    assert [s][..0] == [];
    assert Watchdog.After(p, w, []) == w;
  }

  // The signals device i receives over a run.
  function SignalsOf(table: seq<Device>, i: nat, s: System, es: seq<Event>): seq<Watchdog.Signal>
    requires i < |table| && s.shown.Keys == s.blocks.Keys && AllProper(table, es)
  {
    if es == [] then []
    else
      var init := es[..|es| - 1];
      SignalsOf(table, i, s, init) + SignalOf(table, i, After(table, s, init), es[|es| - 1])
  }

  // Refinement: over every run, each device behaves as its own watchdog
  // automaton fed with the ticks and its own messages, whatever the other
  // devices and their messages do.
  lemma {:induction false} DeviceRefinement(table: seq<Device>, i: nat, s: System, es: seq<Event>)
    requires DistinctNames(table) && Fits(table, s) && i < |table| && AllProper(table, es)
    ensures Project(After(table, s, es), table[i].devName) ==
            Watchdog.After(PolicyOf(table[i]), Project(s, table[i].devName), SignalsOf(table, i, s, es))
  {
    if es != [] {
      var init, e := es[..|es| - 1], es[|es| - 1];
      DeviceRefinement(table, i, s, init);
      var t := After(table, s, init);
      ProjectStep(table, i, t, e);
      WatchConcat(PolicyOf(table[i]), Project(s, table[i].devName),
                  SignalsOf(table, i, s, init), SignalOf(table, i, t, e));
    }
  }

  lemma {:induction false} WatchConcat(p: Retry.Policy, w: Watchdog.Watch, a: seq<Watchdog.Signal>,
                                       b: seq<Watchdog.Signal>)
    ensures Watchdog.After(p, w, a + b) == Watchdog.After(p, Watchdog.After(p, w, a), b)
  {
    if b == [] {
      assert a + b == a;
    } else {
      WatchConcat(p, w, a, b[..|b| - 1]);
      assert (a + b)[..|a + b| - 1] == a + b[..|b| - 1];
    }
  }

  ghost predicate StatusCoupled(table: seq<Device>, i: nat, t: System)
    requires i < |table|
  {
    var d := table[i].devName;
    d in t.blocks && d in t.shown && Watchdog.Coupled(PolicyOf(table[i]), Project(t, d))
  }

  // No signal received by device i wrapped its counter, and none of its
  // messages threw while "error" was shown.
  ghost predicate Undisturbed(table: seq<Device>, i: nat, s: System, es: seq<Event>)
    requires i < |table| && table[i].devName in s.blocks && s.shown.Keys == s.blocks.Keys && AllProper(table, es)
  {
    var ss := SignalsOf(table, i, s, es);
    Watchdog.IntactUpTo(PolicyOf(table[i]), Project(s, table[i].devName), ss, |ss|)
  }

  lemma {:induction false} IntactAppend(p: Retry.Policy, w: Watchdog.Watch, a: seq<Watchdog.Signal>,
                                        b: seq<Watchdog.Signal>)
    requires |b| <= 1
    ensures Watchdog.IntactUpTo(p, w, a + b, |a + b|) <==>
            Watchdog.IntactUpTo(p, w, a, |a|) && (b == [] || !Watchdog.Breaks(Watchdog.After(p, w, a), b[0]))
  {
    var ss := a + b;
    assert forall i :: 0 <= i < |a| ==> ss[..i] == a[..i] && ss[i] == a[i];
    assert ss[..|a|] == a;
    assert a[..|a|] == a;
  }

  lemma {:induction false} CoupledEvent(table: seq<Device>, i: nat, t: System, e: Event)
    requires DistinctNames(table) && Fits(table, t) && i < |table| && Proper(table, e) && StatusCoupled(table, i, t)
    ensures var signal := SignalOf(table, i, t, e);
            StatusCoupled(table, i, Next(table, t, e)) <==>
            signal == [] || !Watchdog.Breaks(Project(t, table[i].devName), signal[0])
  {
    var p, w, signal := PolicyOf(table[i]), Project(t, table[i].devName), SignalOf(table, i, t, e);
    ProjectStep(table, i, t, e);
    if signal != [] {
      assert signal == [signal[0]];
      AfterOne(p, w, signal[0]);
      Watchdog.CouplingStep(p, w, signal[0]);
    }
  }

  // Coupled now and after every shorter prefix of the run.
  ghost predicate CoupledThroughout(table: seq<Device>, i: nat, s: System, es: seq<Event>)
    requires i < |table| && s.shown.Keys == s.blocks.Keys && AllProper(table, es)
  {
    && StatusCoupled(table, i, After(table, s, es))
    && (es != [] ==> CoupledThroughout(table, i, s, es[..|es| - 1]))
  }

  lemma {:induction false} UndisturbedAppend(table: seq<Device>, i: nat, s: System, es: seq<Event>)
    requires DistinctNames(table) && Fits(table, s) && i < |table| && AllProper(table, es) && es != []
    ensures var init, e := es[..|es| - 1], es[|es| - 1];
            var t := After(table, s, init);
            var signal := SignalOf(table, i, t, e);
            Undisturbed(table, i, s, es) <==>
            Undisturbed(table, i, s, init)
            && (signal == [] || !Watchdog.Breaks(Project(t, table[i].devName), signal[0]))
  {
    var init, e := es[..|es| - 1], es[|es| - 1];
    DeviceRefinement(table, i, s, init);
    IntactAppend(PolicyOf(table[i]), Project(s, table[i].devName),
                 SignalsOf(table, i, s, init), SignalOf(table, i, After(table, s, init), e));
  }

  // Status topic and counter of device i agree at every moment of the run if
  // and only if the run leaves the device undisturbed.
  lemma {:induction false} SystemCouplingExact(table: seq<Device>, i: nat, s: System, es: seq<Event>)
    requires DistinctNames(table) && Fits(table, s) && i < |table| && AllProper(table, es)
             && StatusCoupled(table, i, s)
    ensures CoupledThroughout(table, i, s, es) <==> Undisturbed(table, i, s, es)
  {
    if es != [] {
      var init, e := es[..|es| - 1], es[|es| - 1];
      SystemCouplingExact(table, i, s, init);
      UndisturbedAppend(table, i, s, es);
      if StatusCoupled(table, i, After(table, s, init)) {
        CoupledEvent(table, i, After(table, s, init), e);
      }
    }
  }

  // A device armed at t0 that then receives nothing but watchdog ticks, at
  // least every `gap` ms, while the rest of the system runs on: its status is
  // left alone before t0 + (N+1)*(T+1) and is "error" from t0 + (N+1)*(T+gap),
  // with T the configured seconds in milliseconds.
  lemma {:induction false} SilenceIsReported(table: seq<Device>, i: nat, s: System, es: seq<Event>, t0: int,
                                             ts: seq<int>, gap: int)
    requires DistinctNames(table) && Fits(table, s) && i < |table| && AllProper(table, es)
    requires s.blocks[table[i].devName] == Retry.Block(0, t0 + 1000 * table[i].nodeTimeoutInSec)
    requires SignalsOf(table, i, s, es) == Watchdog.Silence(ts)
    requires ts != [] && gap >= 1 && Retry.Paced(ts, t0, gap)
    ensures var dev, now, status := table[i], ts[|ts| - 1], After(table, s, es).shown[table[i].devName];
            && (now < t0 + (dev.nodeConnectionAttempt + 1) * (1000 * dev.nodeTimeoutInSec + 1) ==>
                  status == s.shown[dev.devName])
            && (now >= t0 + (dev.nodeConnectionAttempt + 1) * (1000 * dev.nodeTimeoutInSec + gap) ==>
                  status == Watchdog.Error)
  {
    SilenceIsMarked(table, i, s, es, t0, ts, gap);
  }

  // The two bounds for a device last heard at t0.
  predicate MarkedInTime(dev: Device, t0: int, now: int, gap: int, before: Watchdog.Status, status: Watchdog.Status) {
    && (now < t0 + (dev.nodeConnectionAttempt + 1) * (1000 * dev.nodeTimeoutInSec + 1) ==> status == before)
    && (now >= t0 + (dev.nodeConnectionAttempt + 1) * (1000 * dev.nodeTimeoutInSec + gap) ==> status == Watchdog.Error)
  }

  lemma {:induction false} SilenceIsMarked(table: seq<Device>, i: nat, s: System, es: seq<Event>, t0: int,
                                           ts: seq<int>, gap: int)
    requires DistinctNames(table) && Fits(table, s) && i < |table| && AllProper(table, es)
    requires s.blocks[table[i].devName] == Retry.Block(0, t0 + 1000 * table[i].nodeTimeoutInSec)
    requires SignalsOf(table, i, s, es) == Watchdog.Silence(ts)
    requires ts != [] && gap >= 1 && Retry.Paced(ts, t0, gap)
    ensures MarkedInTime(table[i], t0, ts[|ts| - 1], gap, s.shown[table[i].devName],
                         After(table, s, es).shown[table[i].devName])
  {
    var d := table[i].devName;
    var p := Retry.Policy(table[i].nodeConnectionAttempt, 1000 * table[i].nodeTimeoutInSec);
    var w := Watchdog.Watch(Retry.Block(0, t0 + p.wait), s.shown[d]);
    assert After(table, s, es).shown[d] == Watchdog.After(p, w, Watchdog.Silence(ts)).status by {
      assert PolicyOf(table[i]) == p && Project(s, d) == w;
      DeviceRefinement(table, i, s, es);
    }
    Watchdog.SilentDeviceMarked(p, t0, s.shown[d], ts, gap);
    MarkedBoth(table[i], p, t0, ts[|ts| - 1], gap, s.shown[d], After(table, s, es).shown[d]);
  }

  lemma {:induction false} MarkedBoth(dev: Device, p: Retry.Policy, t0: int, now: int, gap: int,
                                      before: Watchdog.Status, status: Watchdog.Status)
    requires p == Retry.Policy(dev.nodeConnectionAttempt, 1000 * dev.nodeTimeoutInSec)
    requires Watchdog.MarkedOnTime(p, t0, now, gap, before, status)
    ensures MarkedInTime(dev, t0, now, gap, before, status)
  {
  }

  // A watchdog tick as device i sees it, whatever the other devices do: nothing
  // up to its deadline; after it an attempt while its counter is below its
  // bound, and "error" exactly when the counter is at its bound.
  lemma {:induction false} TickExact(table: seq<Device>, i: nat, s: System, now: int)
    requires DistinctNames(table) && Fits(table, s) && i < |table|
    ensures var dev, d := table[i], table[i].devName;
            var b, t := s.blocks[d], OnTick(table, s, now);
            && t.blocks[d] ==
               (if now <= b.deadline then b
                else if b.spent < dev.nodeConnectionAttempt then
                  Retry.Block(b.spent + 1, now + 1000 * dev.nodeTimeoutInSec)
                else Retry.Block((b.spent + 1) % TWO32, b.deadline))
            && t.shown[d] ==
               (if now > b.deadline && b.spent == dev.nodeConnectionAttempt then Watchdog.Error else s.shown[d])
  {
    LookupAgrees(table, i);
  }

  // A message as device i sees it: on its input topic, if no earlier row threw,
  // the device is rearmed, and "ok" is shown unless its fields throw; any other
  // message leaves it alone.
  lemma {:induction false} MessageExact(table: seq<Device>, i: nat, s: System, topic: string, msg: string,
                                        clock: seq<int>)
    requires DistinctNames(table) && Fits(table, s) && i < |table| == |clock| && InRange(table[i])
    ensures var dev, d, t := table[i], table[i].devName, OnUpdate(table, s, topic, msg, clock);
            d in t.blocks && d in t.shown &&
            if topic == dev.inputTopic && Reached(table, i, s.blocks, topic, msg, clock) then
              && t.blocks[d] == Retry.Block(0, clock[i] + 1000 * dev.nodeTimeoutInSec)
              && t.shown[d] == if FieldsThrow(dev, msg) then s.shown[d] else Watchdog.Okay
            else t.blocks[d] == s.blocks[d] && t.shown[d] == s.shown[d]
  {
    RowsSeenBy(table, i, |table|, s, topic, msg, clock);
    FieldsThrowExact(table[i], msg);
  }

  // ---------------------------------------------------------------- start

  // createDeviceList: emplace keeps the first block of a name.
  function CreatedBlocks(table: seq<Device>, n: nat, clock: seq<int>): Blocks
    requires n <= |table| == |clock|
  {
    if n == 0 then map[]
    else
      var before := CreatedBlocks(table, n - 1, clock);
      if table[n - 1].devName in before then before
      else before[table[n - 1].devName := Rearmed(table[n - 1], clock[n - 1])]
  }

  lemma {:induction false} CreatedKeys(table: seq<Device>, n: nat, clock: seq<int>)
    requires n <= |table| == |clock|
    ensures CreatedBlocks(table, n, clock).Keys == set i | 0 <= i < n :: table[i].devName
  {
    if n > 0 {
      CreatedKeys(table, n - 1, clock);
    }
  }

  // The watchdog has a block for exactly the configured names; with distinct
  // names it is the block of that row, and the lookup returns that row.
  lemma {:induction false} CreatedBlocksAgree(table: seq<Device>, n: nat, clock: seq<int>)
    requires n <= |table| == |clock|
    ensures CreatedBlocks(table, n, clock).Keys == set i | 0 <= i < n :: table[i].devName
    ensures DistinctNames(table) ==> forall i :: 0 <= i < n ==>
              && CreatedBlocks(table, n, clock)[table[i].devName] ==
                 Retry.Block(0, clock[i] + 1000 * table[i].nodeTimeoutInSec)
              && GetGwtItem(table, table[i].devName) == Some(table[i])
  {
    CreatedKeys(table, n, clock);
    if DistinctNames(table) {
      forall i | 0 <= i < n
        ensures CreatedBlocks(table, n, clock)[table[i].devName] ==
                Retry.Block(0, clock[i] + 1000 * table[i].nodeTimeoutInSec)
        ensures GetGwtItem(table, table[i].devName) == Some(table[i])
      {
        CreatedBlock(table, n, clock, i);
        LookupAgrees(table, i);
      }
    }
  }

  // Of several rows with one name the first makes the block.
  lemma {:induction false} CreatedByFirst(table: seq<Device>, n: nat, clock: seq<int>, name: string, i: nat)
    requires n <= |table| == |clock| && i < n && FirstNamed(table, name, i)
    ensures name in CreatedBlocks(table, n, clock)
    ensures CreatedBlocks(table, n, clock)[name] == Retry.Block(0, clock[i] + 1000 * table[i].nodeTimeoutInSec)
  {
    CreatedKeys(table, n - 1, clock);
    if i < n - 1 {
      CreatedByFirst(table, n - 1, clock, name, i);
    }
  }

  lemma {:induction false} CreatedBlock(table: seq<Device>, n: nat, clock: seq<int>, i: nat)
    requires i < n <= |table| == |clock| && DistinctNames(table)
    ensures table[i].devName in CreatedBlocks(table, n, clock)
    ensures CreatedBlocks(table, n, clock)[table[i].devName] ==
            Retry.Block(0, clock[i] + 1000 * table[i].nodeTimeoutInSec)
  {
    CreatedByFirst(table, n, clock, table[i].devName, i);
  }

  function Started(table: seq<Device>, clock: seq<int>): System
    requires |table| == |clock|
  {
    var blocks := CreatedBlocks(table, |table|, clock);
    System(blocks, map d | d in blocks :: Watchdog.Unset)
  }

  // From start-up on: at every moment the blocks are those of the configured
  // devices, and throughout the run "error" is shown for a device exactly while
  // its counter exceeds its bound, if and only if it stays undisturbed.
  lemma {:induction false} FromStart(table: seq<Device>, i: nat, clock: seq<int>, es: seq<Event>)
    requires DistinctNames(table) && |table| == |clock| && i < |table| && AllProper(table, es)
    ensures After(table, Started(table, clock), es).blocks.Keys == set k | 0 <= k < |table| :: table[k].devName
    ensures Fits(table, Started(table, clock))
    ensures CoupledThroughout(table, i, Started(table, clock), es) <==>
              Undisturbed(table, i, Started(table, clock), es)
  {
    var s := Started(table, clock);
    CreatedBlocksAgree(table, |table|, clock);
    assert Fits(table, s);
    assert Project(s, table[i].devName) == Watchdog.Watch(Rearmed(table[i], clock[i]), Watchdog.Unset);
    SystemCouplingExact(table, i, s, es);
  }

  // ---------------------------------------------------------------- throwing

  ghost predicate InRange(dev: Device) {
    NumbersInRange(dev.inputMapping, |dev.inputMapping|)
  }

  // The message has a field for every channel, and stoi throws on the field of
  // the first mapped one.
  ghost predicate FieldsThrow(dev: Device, msg: string)
    requires InRange(dev)
  {
    var data := Text.Split(msg, ',');
    && |data| == |dev.inputMapping|
    && FirstMapped(dev.inputMapping).Some?
    && Text.Stoi(data[FirstMapped(dev.inputMapping).value.number]).None?
  }

  lemma {:induction false} FieldsThrowExact(dev: Device, msg: string)
    requires InRange(dev)
    ensures RouteFields(dev, msg).outcome == if FieldsThrow(dev, msg) then Threw else Completed
  {
    if |Text.Split(msg, ',')| == |dev.inputMapping| {
      InputsOutcomeExact(dev.inputMapping, Text.Split(msg, ','));
    }
  }

  // A message of n empty fields.
  function BlankMessage(n: nat): string
    requires n > 0
  {
    Text.Join(seq(n, _ => ""), ',')
  }

  lemma {:induction false} BlankThrows(dev: Device)
    requires InRange(dev) && FirstMapped(dev.inputMapping).Some?
    ensures FieldsThrow(dev, BlankMessage(|dev.inputMapping|))
  {
    Text.SplitOfJoin(seq(|dev.inputMapping|, _ => ""), ',');
    Text.StoiNoDigit("", "", "");
    assert "" + ("" + "") == "";
  }

  // A message of empty fields that reaches a mapped device with "error" shown
  // resets its counter and leaves "error" standing.
  lemma {:induction false} BlankLeavesError(table: seq<Device>, i: nat, s: System, clock: seq<int>)
    requires DistinctNames(table) && Fits(table, s) && i < |table| == |clock|
    requires InRange(table[i]) && FirstMapped(table[i].inputMapping).Some?
    requires s.shown[table[i].devName] == Watchdog.Error
    requires Reached(table, i, s.blocks, table[i].inputTopic, BlankMessage(|table[i].inputMapping|), clock)
    ensures var t := OnUpdate(table, s, table[i].inputTopic, BlankMessage(|table[i].inputMapping|), clock);
            && table[i].devName in t.blocks && table[i].devName in t.shown
            && t.shown[table[i].devName] == Watchdog.Error
            && t.blocks[table[i].devName] == Retry.Block(0, clock[i] + 1000 * table[i].nodeTimeoutInSec)
            && !StatusCoupled(table, i, t)
  {
    var msg := BlankMessage(|table[i].inputMapping|);
    BlankThrows(table[i]);
    FieldsThrowExact(table[i], msg);
    RowsSeenBy(table, i, |table|, s, table[i].inputTopic, msg, clock);
  }

  function Ticks(ts: seq<int>): seq<Event> {
    seq(|ts|, i requires 0 <= i < |ts| => Tick(ts[i]))
  }

  lemma {:induction false} TicksAreSilence(table: seq<Device>, i: nat, s: System, ts: seq<int>)
    requires i < |table| && s.shown.Keys == s.blocks.Keys
    ensures AllProper(table, Ticks(ts)) && SignalsOf(table, i, s, Ticks(ts)) == Watchdog.Silence(ts)
  {
    if ts != [] {
      var init := ts[..|ts| - 1];
      TicksAreSilence(table, i, s, init);
      assert Ticks(ts)[..|ts| - 1] == Ticks(init);
      assert Watchdog.Silence(ts) == Watchdog.Silence(init) + [Watchdog.Check(ts[|ts| - 1])];
    }
  }

  lemma {:induction false} StartedFits(table: seq<Device>, i: nat, clock: seq<int>)
    requires DistinctNames(table) && i < |table| == |clock|
    ensures Fits(table, Started(table, clock))
    ensures Started(table, clock).blocks[table[i].devName] ==
            Retry.Block(0, clock[i] + 1000 * table[i].nodeTimeoutInSec)
    ensures Started(table, clock).shown[table[i].devName] == Watchdog.Unset
  {
    CreatedBlock(table, |table|, clock, i);
    CreatedKeys(table, |table|, clock);
  }

  // The same from start-up: a device created at clock[i] that never sends.
  lemma {:induction false} SilenceFromStart(table: seq<Device>, i: nat, clock: seq<int>, es: seq<Event>,
                                            ts: seq<int>, gap: int)
    requires DistinctNames(table) && i < |table| == |clock| && AllProper(table, es)
    requires SignalsOf(table, i, Started(table, clock), es) == Watchdog.Silence(ts)
    requires ts != [] && gap >= 1 && Retry.Paced(ts, clock[i], gap)
    ensures Fits(table, Started(table, clock))
    ensures var dev, now := table[i], ts[|ts| - 1];
            var status := After(table, Started(table, clock), es).shown[dev.devName];
            && (now < clock[i] + (dev.nodeConnectionAttempt + 1) * (1000 * dev.nodeTimeoutInSec + 1) ==>
                  status == Watchdog.Unset)
            && (now >= clock[i] + (dev.nodeConnectionAttempt + 1) * (1000 * dev.nodeTimeoutInSec + gap) ==>
                  status == Watchdog.Error)
  {
    StartedFits(table, i, clock);
    SilenceIsMarked(table, i, Started(table, clock), es, clock[i], ts, gap);
  }

  // Watchdog ticks at the times ts, and then a message of empty fields.
  function SilentThenBlank(dev: Device, ts: seq<int>, now: int): seq<Event>
    requires dev.inputMapping != []
  {
    Ticks(ts) + [Update(dev.inputTopic, BlankMessage(|dev.inputMapping|), [now])]
  }

  // It happens from start-up, on every run on which a mapped device stays
  // silent long enough under ticks at most `gap` apart, and then sends empty
  // fields at a time no earlier than the last tick.
  lemma {:induction false} ErrorOutlivesSilence(dev: Device, t0: int, ts: seq<int>, gap: int, now: int)
    requires InRange(dev) && FirstMapped(dev.inputMapping).Some?
    requires ts != [] && gap >= 1 && Retry.Paced(ts, t0, gap) && now >= ts[|ts| - 1]
    requires ts[|ts| - 1] >= t0 + (dev.nodeConnectionAttempt + 1) * (1000 * dev.nodeTimeoutInSec + gap)
    ensures var es := SilentThenBlank(dev, ts, now);
            && AllProper([dev], es)
            && var t := After([dev], Started([dev], [t0]), es);
               && dev.devName in t.blocks && dev.devName in t.shown
               && t.shown[dev.devName] == Watchdog.Error
               && t.blocks[dev.devName] == Retry.Block(0, now + 1000 * dev.nodeTimeoutInSec)
  {
    AloneAndSilent(dev, t0, ts, gap);
    BlankAfterError(dev, t0, ts, now);
  }

  // A device that is alone in the table and silent from the start.
  lemma {:induction false} AloneAndSilent(dev: Device, t0: int, ts: seq<int>, gap: int)
    requires ts != [] && gap >= 1 && Retry.Paced(ts, t0, gap)
    requires ts[|ts| - 1] >= t0 + (dev.nodeConnectionAttempt + 1) * (1000 * dev.nodeTimeoutInSec + gap)
    ensures AllProper([dev], Ticks(ts)) && Fits([dev], After([dev], Started([dev], [t0]), Ticks(ts)))
    ensures After([dev], Started([dev], [t0]), Ticks(ts)).shown[dev.devName] == Watchdog.Error
  {
    AloneIsMarked(dev, t0, ts, gap);
  }

  lemma {:induction false} AloneIsMarked(dev: Device, t0: int, ts: seq<int>, gap: int)
    requires ts != [] && gap >= 1 && Retry.Paced(ts, t0, gap)
    ensures AllProper([dev], Ticks(ts)) && Fits([dev], After([dev], Started([dev], [t0]), Ticks(ts)))
    ensures MarkedInTime(dev, t0, ts[|ts| - 1], gap, Watchdog.Unset,
                         After([dev], Started([dev], [t0]), Ticks(ts)).shown[dev.devName])
  {
    assert [dev][0] == dev;
    StartedFits([dev], 0, [t0]);
    TicksAreSilence([dev], 0, Started([dev], [t0]), ts);
    SilenceIsMarked([dev], 0, Started([dev], [t0]), Ticks(ts), t0, ts, gap);
  }

  lemma {:induction false} BlankAfterError(dev: Device, t0: int, ts: seq<int>, now: int)
    requires InRange(dev) && FirstMapped(dev.inputMapping).Some?
    requires AllProper([dev], Ticks(ts)) && Fits([dev], After([dev], Started([dev], [t0]), Ticks(ts)))
    requires After([dev], Started([dev], [t0]), Ticks(ts)).shown[dev.devName] == Watchdog.Error
    ensures var es := SilentThenBlank(dev, ts, now);
            && AllProper([dev], es)
            && var t := After([dev], Started([dev], [t0]), es);
               && dev.devName in t.blocks && dev.devName in t.shown
               && t.shown[dev.devName] == Watchdog.Error
               && t.blocks[dev.devName] == Retry.Block(0, now + 1000 * dev.nodeTimeoutInSec)
  {
    var s, es := Started([dev], [t0]), SilentThenBlank(dev, ts, now);
    var t, last := After([dev], s, Ticks(ts)), es[|es| - 1];
    assert es[..|es| - 1] == Ticks(ts);
    BlankLeavesError([dev], 0, t, [now]);
    assert After([dev], s, es) == Next([dev], t, last);
  }

  // n watchdog ticks, one every `gap` milliseconds.
  function Periodic(t0: int, gap: int, n: nat): seq<int> {
    seq(n, k => t0 + (k + 1) * gap)
  }

  lemma {:induction false} PeriodicPaced(t0: int, gap: int, n: nat)
    requires gap >= 1
    ensures Retry.Paced(Periodic(t0, gap, n), t0, gap)
  {
    var ts := Periodic(t0, gap, n);
    forall i | 0 <= i < n
      ensures Retry.Previous(ts, t0, i) <= ts[i] <= Retry.Previous(ts, t0, i) + gap
    {
      Distribute(i, gap);
    }
  }

  // There are such runs at every pace, that of the executor's timer included.
  lemma {:induction false} PeriodicSilence(dev: Device, t0: int, gap: int, n: nat, now: int)
    requires InRange(dev) && FirstMapped(dev.inputMapping).Some?
    requires gap >= 1 && n * gap >= (dev.nodeConnectionAttempt + 1) * (1000 * dev.nodeTimeoutInSec + gap)
    requires now >= t0 + n * gap
    ensures var es := SilentThenBlank(dev, Periodic(t0, gap, n), now);
            && AllProper([dev], es)
            && var t := After([dev], Started([dev], [t0]), es);
               && dev.devName in t.blocks && dev.devName in t.shown
               && t.shown[dev.devName] == Watchdog.Error && t.blocks[dev.devName].spent == 0
  {
    assert n > 0 by { ProductMonotone(1, dev.nodeConnectionAttempt + 1, 1000 * dev.nodeTimeoutInSec + gap); }
    PeriodicPaced(t0, gap, n);
    ErrorOutlivesSilence(dev, t0, Periodic(t0, gap, n), gap, now);
  }
}
