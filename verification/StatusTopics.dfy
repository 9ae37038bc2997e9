// The status topics as their readers see them: the last text on a topic,
// rather than the last status sent for a device.
module StatusTopics {
  import opened Common
  import opened DeviceTable
  import opened Routing
  import opened BridgeModel
  import Sweep
  import Text
  import Watchdog

  // ---------------------------------------------------------------- topics

  function LastOn(log: seq<Publication>, topic: string): Option<string> {
    if log == [] then None
    else
      var last := log[|log| - 1];
      if last.topic == topic then Some(last.payload) else LastOn(log[..|log| - 1], topic)
  }

  ghost predicate ChannelOn(chs: seq<Channel>, topic: string) {
    exists c :: 0 <= c < |chs| && chs[c].mqttTopic == topic
  }

  // What a row of the table can publish.
  ghost predicate FromRow(dev: Device, p: Publication) {
    match p
    case Input(topic, _) => ChannelOn(dev.inputMapping, topic)
    case Control(topic, _) => topic == dev.outputTopic && topic != ""
    case Status(d, topic, payload) =>
      d == dev.devName && topic == dev.statusTopic && (payload == "ok" || payload == "error")
  }

  ghost predicate FromTable(table: seq<Device>, p: Publication) {
    exists j :: 0 <= j < |table| && FromRow(table[j], p)
  }

  ghost predicate AllFromTable(table: seq<Device>, log: seq<Publication>) {
    forall k :: 0 <= k < |log| ==> FromTable(table, log[k])
  }

  // Nothing but the status of device i goes to its status topic.
  ghost predicate OwnsStatusTopic(table: seq<Device>, i: nat)
    requires i < |table|
  {
    forall j :: 0 <= j < |table| ==> LeavesTopic(table[j], table[i].statusTopic, j == i)
  }

  ghost predicate LeavesTopic(dev: Device, topic: string, own: bool) {
    && (own || dev.statusTopic != topic)
    && (dev.outputTopic == topic ==> topic == "")
    && !ChannelOn(dev.inputMapping, topic)
  }

  function PayloadOf(status: Watchdog.Status): Option<string> {
    match status
    case Unset => None
    case Okay => Some("ok")
    case Error => Some("error")
  }

  // On a topic of its own, the last text is the last status of the device.
  lemma {:induction false} TopicShows(table: seq<Device>, i: nat, log: seq<Publication>)
    requires DistinctNames(table) && i < |table| && OwnsStatusTopic(table, i) && AllFromTable(table, log)
    ensures LastOn(log, table[i].statusTopic) == PayloadOf(Shown(Watchdog.Unset, log, table[i].devName))
  {
    if log != [] {
      TopicShows(table, i, log[..|log| - 1]);
      TopicOf(table, i, log[|log| - 1]);
    }
  }

  lemma {:induction false} TopicOf(table: seq<Device>, i: nat, p: Publication)
    requires DistinctNames(table) && i < |table| && OwnsStatusTopic(table, i) && FromTable(table, p)
    ensures p.topic == table[i].statusTopic <==> p.Status? && p.device == table[i].devName
    ensures p.Status? ==> PayloadOf(StatusOf(p)) == Some(p.payload)
  {
    var j :| 0 <= j < |table| && FromRow(table[j], p);
    assert LeavesTopic(table[j], table[i].statusTopic, j == i);
  }

  // ---------------------------------------------------------------- events

  // A watchdog pass publishes in the order of the map, which is not fixed.
  ghost predicate Publishes(table: seq<Device>, s: System, e: Event, added: seq<Publication>)
    requires s.shown.Keys == s.blocks.Keys && Proper(table, e)
  {
    match e
    case Tick(now) => Sweep.Swept(WatchdogRule(table, now), s.blocks, {}, OnTick(table, s, now).blocks, added)
    case Update(topic, msg, clock) => added == RouteTable(table, |table|, s.blocks, topic, msg, clock).pubs
  }

  ghost predicate AllFromRow(dev: Device, pubs: seq<Publication>) {
    forall k :: 0 <= k < |pubs| ==> FromRow(dev, pubs[k])
  }

  lemma {:induction false} InputsFromRow(dev: Device, chs: seq<Channel>, data: seq<string>)
    requires forall c :: 0 <= c < |chs| ==> ChannelOn(dev.inputMapping, chs[c].mqttTopic)
    ensures AllFromRow(dev, RouteInputs(chs, data).pubs)
  {
    if chs != [] {
      assert ChannelOn(dev.inputMapping, chs[0].mqttTopic);
      assert AllFromRow(dev, RouteInput(chs[0], data).pubs);
      InputsFromRow(dev, chs[1..], data);
    }
  }

  lemma {:induction false} OutputsFromRow(dev: Device, chs: seq<Channel>, topic: string, msg: string)
    ensures AllFromRow(dev, RouteOutputs(chs, dev.outputTopic, topic, msg))
  {
    if chs != [] {
      assert dev.outputTopic != "" ==> AllFromRow(dev, RouteOutput(chs[0], dev.outputTopic, msg));
      OutputsFromRow(dev, chs[1..], topic, msg);
    }
  }

  lemma {:induction false} RowFromRow(dev: Device, blocks: Blocks, topic: string, msg: string, now: int)
    ensures AllFromRow(dev, RouteRow(dev, blocks, topic, msg, now).pubs)
  {
    forall c | 0 <= c < |dev.inputMapping|
      ensures ChannelOn(dev.inputMapping, dev.inputMapping[c].mqttTopic)
    {
    }
    InputsFromRow(dev, dev.inputMapping, Text.Split(msg, ','));
    OutputsFromRow(dev, dev.outputMapping, topic, msg);
    assert AllFromRow(dev, RouteFields(dev, msg).pubs);
  }

  lemma {:induction false} UpdateFromTable(table: seq<Device>, n: nat, blocks: Blocks, topic: string, msg: string,
                                           clock: seq<int>)
    requires n <= |table| == |clock|
    ensures AllFromTable(table, RouteTable(table, n, blocks, topic, msg, clock).pubs)
  {
    if n > 0 {
      UpdateFromTable(table, n - 1, blocks, topic, msg, clock);
      var before := RouteTable(table, n - 1, blocks, topic, msg, clock);
      RowFromRow(table[n - 1], before.blocks, topic, msg, clock[n - 1]);
    }
  }

  lemma {:induction false} LookupFound(table: seq<Device>, d: string) returns (j: nat)
    requires GetGwtItem(table, d).Some?
    ensures j < |table| && table[j].devName == d && GetGwtItem(table, d) == Some(table[j])
  {
    j := 0;
    if table[0].devName != d {
      j := LookupFound(table[1..], d);
      j := j + 1;
    }
  }

  lemma {:induction false} TickFromTable(table: seq<Device>, before: Blocks, now: int, blocks: Blocks,
                                         added: seq<Publication>)
    requires Sweep.Swept(WatchdogRule(table, now), before, {}, blocks, added)
    ensures AllFromTable(table, added)
  {
    var r := WatchdogRule(table, now);
    Sweep.SweepDone(r, before, blocks, added);
    forall k | 0 <= k < |added|
      ensures FromTable(table, added[k])
    {
      assert r.about(added[k]) == Subject(added[k]);
      var d := added[k].device;
      Sweep.OfMember(Subject, added, k, d);
      assert Sweep.Of(Subject, added, d) == r.emit(d, before[d]) == ErrorFor(table, d, before[d], now);
      var j := LookupFound(table, d);
      assert FromRow(table[j], added[k]);
    }
  }

  // ---------------------------------------------------------------- runs

  // The publications of every event of a run.
  ghost predicate Trace(table: seq<Device>, s: System, es: seq<Event>, logs: seq<seq<Publication>>)
    requires s.shown.Keys == s.blocks.Keys && AllProper(table, es)
  {
    if es == [] then logs == []
    else
      var init := es[..|es| - 1];
      && |logs| == |es|
      && Trace(table, s, init, logs[..|es| - 1])
      && Publishes(table, After(table, s, init), es[|es| - 1], logs[|es| - 1])
  }

  function Flat(logs: seq<seq<Publication>>): seq<Publication> {
    if logs == [] then [] else Flat(logs[..|logs| - 1]) + logs[|logs| - 1]
  }

  // `log` is what the bridge published on its way to s.
  ghost predicate Accounts(table: seq<Device>, s: System, log: seq<Publication>) {
    s.shown == ShownMap(s.blocks, log) && AllFromTable(table, log)
  }

  lemma {:induction false} PublishesSound(table: seq<Device>, s: System, e: Event, log: seq<Publication>,
                                          added: seq<Publication>)
    requires Accounts(table, s, log)
    requires s.shown.Keys == s.blocks.Keys && Proper(table, e) && Publishes(table, s, e, added)
    ensures Accounts(table, Next(table, s, e), log + added)
  {
    assert s == System(s.blocks, ShownMap(s.blocks, log));
    match e
    case Tick(now) =>
      PassIsTick(table, s.blocks, now, OnTick(table, s, now).blocks, log, added);
      TickFromTable(table, s.blocks, now, OnTick(table, s, now).blocks, added);
    case Update(topic, msg, clock) =>
      RouteIsUpdate(table, s.blocks, log, topic, msg, clock);
      UpdateFromTable(table, |table|, s.blocks, topic, msg, clock);
  }

  lemma {:induction false} TraceSound(table: seq<Device>, s: System, es: seq<Event>, logs: seq<seq<Publication>>)
    requires Accounts(table, s, []) && s.shown.Keys == s.blocks.Keys && AllProper(table, es)
    requires Trace(table, s, es, logs)
    ensures Accounts(table, After(table, s, es), Flat(logs))
  {
    if es != [] {
      var n := |es| - 1;
      TraceSound(table, s, es[..n], logs[..n]);
      PublishesSound(table, After(table, s, es[..n]), es[n], Flat(logs[..n]), logs[n]);
    }
  }

  // The status topic of device i reads "error" exactly while its counter
  // exceeds its bound.
  ghost predicate TopicCoupled(table: seq<Device>, i: nat, t: System, log: seq<Publication>)
    requires i < |table|
  {
    var dev := table[i];
    && dev.devName in t.blocks
    && (LastOn(log, dev.statusTopic) == Some("error") <==> t.blocks[dev.devName].spent > dev.nodeConnectionAttempt)
  }

  ghost predicate TopicCoupledThroughout(table: seq<Device>, i: nat, s: System, es: seq<Event>,
                                         logs: seq<seq<Publication>>)
    requires i < |table| && s.shown.Keys == s.blocks.Keys && AllProper(table, es) && |logs| == |es|
  {
    && TopicCoupled(table, i, After(table, s, es), Flat(logs))
    && (es != [] ==> TopicCoupledThroughout(table, i, s, es[..|es| - 1], logs[..|es| - 1]))
  }

  lemma {:induction false} TopicCoupledNow(table: seq<Device>, i: nat, t: System, log: seq<Publication>)
    requires DistinctNames(table) && i < |table| && OwnsStatusTopic(table, i)
    requires Accounts(table, t, log) && table[i].devName in t.blocks
    ensures TopicCoupled(table, i, t, log) <==> StatusCoupled(table, i, t)
  {
    TopicShows(table, i, log);
    assert t.shown[table[i].devName] == Shown(Watchdog.Unset, log, table[i].devName);
  }

  lemma {:induction false} TopicCoupledIff(table: seq<Device>, i: nat, clock: seq<int>, es: seq<Event>,
                                           logs: seq<seq<Publication>>)
    requires DistinctNames(table) && |table| == |clock| && i < |table| && OwnsStatusTopic(table, i)
    requires AllProper(table, es) && Trace(table, Started(table, clock), es, logs)
    ensures TopicCoupled(table, i, After(table, Started(table, clock), es), Flat(logs)) <==>
            StatusCoupled(table, i, After(table, Started(table, clock), es))
  {
    var s := Started(table, clock);
    assert table[i].devName in s.blocks by { CreatedBlock(table, |table|, clock, i); }
    assert s.shown == ShownMap(s.blocks, []);
    TraceSound(table, s, es, logs);
    TopicCoupledNow(table, i, After(table, s, es), Flat(logs));
  }

  lemma {:induction false} TopicCoupledThroughoutIff(table: seq<Device>, i: nat, clock: seq<int>, es: seq<Event>,
                                                     logs: seq<seq<Publication>>)
    requires DistinctNames(table) && |table| == |clock| && i < |table| && OwnsStatusTopic(table, i)
    requires AllProper(table, es) && Trace(table, Started(table, clock), es, logs)
    ensures |logs| == |es|
    ensures TopicCoupledThroughout(table, i, Started(table, clock), es, logs) <==>
            CoupledThroughout(table, i, Started(table, clock), es)
  {
    TopicCoupledIff(table, i, clock, es, logs);
    if es != [] {
      TopicCoupledThroughoutIff(table, i, clock, es[..|es| - 1], logs[..|es| - 1]);
    }
  }

  // From start-up on, whatever order the watchdog publishes in: on a status
  // topic nothing else writes to, "error" is the last text exactly while the
  // counter exceeds the bound, throughout the run, if and only if the device
  // stays undisturbed.
  lemma {:induction false} TopicCouplingExact(table: seq<Device>, i: nat, clock: seq<int>, es: seq<Event>,
                                              logs: seq<seq<Publication>>)
    requires DistinctNames(table) && |table| == |clock| && i < |table| && OwnsStatusTopic(table, i)
    requires AllProper(table, es) && Trace(table, Started(table, clock), es, logs)
    ensures Fits(table, Started(table, clock)) && |logs| == |es|
    ensures TopicCoupledThroughout(table, i, Started(table, clock), es, logs) <==>
            Undisturbed(table, i, Started(table, clock), es)
  {
    FromStart(table, i, clock, es);
    TopicCoupledThroughoutIff(table, i, clock, es, logs);
  }
}
