// The wireless bridge object: watchdog blocks, message routing, subscriptions.
module Bridge {
  import opened Common
  import opened DeviceTable
  import opened Routing
  import opened BridgeModel
  import Mqtt
  import Retry
  import Sweep
  import Text

  // ---------------------------------------------------------------- topics

  function SubscribedTopics(chs: seq<Channel>): seq<string> {
    if chs == [] then []
    else
      var init, last := chs[..|chs| - 1], chs[|chs| - 1];
      SubscribedTopics(init) + if last.mqttSubscribe then [last.mqttTopic] else []
  }

  function DeviceTopics(dev: Device): seq<string> {
    [dev.inputTopic] + SubscribedTopics(dev.inputMapping) + SubscribedTopics(dev.outputMapping)
  }

  function PrescribedTopics(table: seq<Device>): seq<string> {
    if table == [] then [] else PrescribedTopics(table[..|table| - 1]) + DeviceTopics(table[|table| - 1])
  }

  // The device table prescribes a topic: it is the input topic of a device or
  // the topic of a channel marked for subscription.
  ghost predicate Prescribes(table: seq<Device>, topic: string) {
    exists i :: 0 <= i < |table| && DevicePrescribes(table[i], topic)
  }

  ghost predicate DevicePrescribes(dev: Device, topic: string) {
    topic == dev.inputTopic || ChannelsPrescribe(dev.inputMapping, topic) || ChannelsPrescribe(dev.outputMapping, topic)
  }

  ghost predicate ChannelsPrescribe(chs: seq<Channel>, topic: string) {
    exists j :: 0 <= j < |chs| && chs[j].mqttSubscribe && chs[j].mqttTopic == topic
  }

  lemma {:induction false} SubscribedTopicsExact(chs: seq<Channel>, topic: string)
    ensures topic in SubscribedTopics(chs) <==> ChannelsPrescribe(chs, topic)
  {
    if chs != [] {
      var init, last := chs[..|chs| - 1], chs[|chs| - 1];
      SubscribedTopicsExact(init, topic);
      assert ChannelsPrescribe(chs, topic) <==>
             ChannelsPrescribe(init, topic) || (last.mqttSubscribe && last.mqttTopic == topic) by {
        if ChannelsPrescribe(init, topic) {
          var j :| 0 <= j < |init| && init[j].mqttSubscribe && init[j].mqttTopic == topic;
          assert chs[j] == init[j];
        }
        if ChannelsPrescribe(chs, topic) {
          var j :| 0 <= j < |chs| && chs[j].mqttSubscribe && chs[j].mqttTopic == topic;
          assert j < |init| ==> init[j] == chs[j];
        }
      }
    }
  }

  lemma {:induction false} PrescribedTopicsExact(table: seq<Device>, topic: string)
    ensures topic in PrescribedTopics(table) <==> Prescribes(table, topic)
  {
    if table != [] {
      var init, last := table[..|table| - 1], table[|table| - 1];
      PrescribedTopicsExact(init, topic);
      SubscribedTopicsExact(last.inputMapping, topic);
      SubscribedTopicsExact(last.outputMapping, topic);
      assert Prescribes(table, topic) <==> Prescribes(init, topic) || DevicePrescribes(last, topic) by {
        if Prescribes(init, topic) {
          var i :| 0 <= i < |init| && DevicePrescribes(init[i], topic);
          assert DevicePrescribes(table[i], topic);
        }
        if Prescribes(table, topic) {
          var i :| 0 <= i < |table| && DevicePrescribes(table[i], topic);
          assert i < |init| ==> DevicePrescribes(init[i], topic);
        }
      }
    }
  }

  // A run of the connection in which the bridge subscribed what its table
  // prescribes, interleaved with any connects and disconnects: whenever it is
  // connected, the broker delivers exactly the prescribed topics.
  lemma {:induction false} PrescribedSession(table: seq<Device>, clean: bool, es: seq<Mqtt.Event>, topic: string)
    requires Mqtt.Requested(es) == PrescribedTopics(table) && Mqtt.After(Mqtt.INITIAL, clean, es).connected
    ensures topic in Mqtt.After(Mqtt.INITIAL, clean, es).session <==> Prescribes(table, topic)
  {
    Mqtt.Replay(clean, es);
    PrescribedTopicsExact(table, topic);
  }

  // ---------------------------------------------------------------- object

  lemma {:induction false} CutAt(msg: string, start: nat, pos: nat)
    requires start <= pos < |msg|
    ensures msg[start..] == msg[start..pos] + [msg[pos]] + msg[pos + 1..]
  {
  }

  // std::getline on a string stream: the characters up to the separator, which
  // is consumed; running into the end instead leaves the stream no longer good.
  method GetLine(msg: string, start: nat, separator: char) returns (field: string, next: nat, good: bool)
    requires start <= |msg|
    ensures start <= next <= |msg| && (good ==> start < next)
    ensures Text.Split(msg[start..], separator) == [field] + if good then Text.Split(msg[next..], separator) else []
  {
    var pos := start;
    while pos < |msg| && msg[pos] != separator
      invariant start <= pos <= |msg| && separator !in msg[start..pos]
    {
      pos := pos + 1;
    }
    field, next, good := msg[start..pos], pos, pos < |msg|;
    if good {
      CutAt(msg, start, pos);
      next := pos + 1;
      Text.SplitPrefix(field, separator, msg[next..]);
    } else {
      assert msg[start..] == field;
      Text.SplitPrefix(field, separator, "");
    }
  }

  // parseIncomingTopic: getline while the stream is good.
  method ParseIncomingTopic(msg: string, separator: char) returns (result: seq<string>)
    ensures result == Text.Split(msg, separator)
    ensures Text.Join(result, separator) == msg && Text.Free(result, separator)
    ensures |result| == Text.CountOf(msg, separator) + 1
  {
    result := [];
    var pos, good := 0, true;
    assert msg[0..] == msg;
    while good
      invariant pos <= |msg|
      invariant Text.Split(msg, separator) == result + if good then Text.Split(msg[pos..], separator) else []
      decreases |msg| - pos, good
    {
      var field: string;
      field, pos, good := GetLine(msg, pos, separator);
      result := result + [field];
    }
    Text.SplitFields(msg, separator);
  }

  class CWirelessBridge {
    const table: seq<Device>
    var deviceItems: Blocks
    // Every setTopic call made so far.
    var sent: seq<Publication>
    // Number of component_level reports made so far.
    var reports: nat

    constructor (table: seq<Device>)
      ensures this.table == table && deviceItems == map[] && sent == [] && reports == 0
    {
      this.table, deviceItems, sent, reports := table, map[], [], 0;
    }

    function View(): System
      reads this
    {
      System(deviceItems, ShownMap(deviceItems, sent))
    }

    method SetTopic(p: Publication)
      modifies this`sent
      ensures sent == old(sent) + [p]
    {
      sent := sent + [p];
    }

    // `clock` gives the reading taken for each row.
    method CreateDeviceList(clock: seq<int>)
      requires |clock| == |table| && deviceItems == map[]
      modifies this`deviceItems
      ensures deviceItems == CreatedBlocks(table, |table|, clock)
    {
      for i := 0 to |table|
        invariant deviceItems == CreatedBlocks(table, i, clock)
      {
        if table[i].devName !in deviceItems {
          deviceItems := deviceItems[table[i].devName := Rearmed(table[i], clock[i])];
        }
      }
    }

    // One more subscription after those of `done`.
    method SubscribeOne(conn: Mqtt.CMqttConnection, ghost before: Mqtt.State, ghost wire: seq<Mqtt.Packet>,
                        ghost done: seq<string>, topic: string)
      requires conn.Added(before, wire, done)
      modifies conn
      ensures conn.Added(before, wire, done + [topic]) && conn.clean == old(conn.clean)
    {
      conn.SubscribeTopic(topic);
      Mqtt.SubscribedAgain(before, done, [topic]);
      Mqtt.PacketsOne(topic);
    }

    method SubscribeChannels(conn: Mqtt.CMqttConnection, ghost before: Mqtt.State, ghost wire: seq<Mqtt.Packet>,
                             ghost done: seq<string>, chs: seq<Channel>)
      requires conn.Added(before, wire, done)
      modifies conn
      ensures conn.Added(before, wire, done + SubscribedTopics(chs)) && conn.clean == old(conn.clean)
    {
      assert done + [] == done;
      for i := 0 to |chs|
        invariant conn.Added(before, wire, done + SubscribedTopics(chs[..i])) && conn.clean == old(conn.clean)
      {
        assert chs[..i + 1][..i] == chs[..i];
        ghost var sofar := done + SubscribedTopics(chs[..i]);
        if chs[i].mqttSubscribe {
          SubscribeOne(conn, before, wire, sofar, chs[i].mqttTopic);
        }
        assert done + SubscribedTopics(chs[..i + 1]) ==
               if chs[i].mqttSubscribe then sofar + [chs[i].mqttTopic] else sofar;
      }
      assert chs[..|chs|] == chs;
    }

    method SubscribeDevice(conn: Mqtt.CMqttConnection, ghost before: Mqtt.State, ghost wire: seq<Mqtt.Packet>,
                           ghost done: seq<string>, dev: Device)
      requires conn.Added(before, wire, done)
      modifies conn
      ensures conn.Added(before, wire, done + DeviceTopics(dev)) && conn.clean == old(conn.clean)
    {
      ghost var one := done + [dev.inputTopic];
      ghost var two := one + SubscribedTopics(dev.inputMapping);
      SubscribeOne(conn, before, wire, done, dev.inputTopic);
      SubscribeChannels(conn, before, wire, one, dev.inputMapping);
      SubscribeChannels(conn, before, wire, two, dev.outputMapping);
      assert done + DeviceTopics(dev) == two + SubscribedTopics(dev.outputMapping);
    }

    // Every prescribed topic is stored, in order, and sent to the broker
    // exactly when connected.
    method MqttSubscribe(conn: Mqtt.CMqttConnection)
      modifies conn
      ensures conn.Snapshot() == Mqtt.SubscribedAll(old(conn.Snapshot()), PrescribedTopics(table))
      ensures conn.wire == old(conn.wire) + Mqtt.Packets(old(conn.Snapshot()), PrescribedTopics(table))
      ensures conn.clean == old(conn.clean)
    {
      ghost var before, wire := conn.Snapshot(), conn.wire;
      assert conn.Added(before, wire, []);
      for i := 0 to |table|
        invariant conn.Added(before, wire, PrescribedTopics(table[..i])) && conn.clean == old(conn.clean)
      {
        assert table[..i + 1][..i] == table[..i];
        SubscribeDevice(conn, before, wire, PrescribedTopics(table[..i]), table[i]);
      }
      assert table[..|table|] == table;
    }

    // The watchdog pass over one device.
    method CheckDevice(d: string, now: int)
      requires d in deviceItems
      modifies this`deviceItems, this`sent
      ensures deviceItems == old(deviceItems)[d := TickBlock(table, d, old(deviceItems)[d], now)]
      ensures sent == old(sent) + ErrorFor(table, d, old(deviceItems)[d], now)
      ensures GetGwtItem(table, d).Some? ==>
                var dev, b := GetGwtItem(table, d).value, old(deviceItems)[d];
                && deviceItems == old(deviceItems)[d :=
                     if now <= b.deadline then b
                     else if b.spent < dev.nodeConnectionAttempt then
                       Retry.Block(b.spent + 1, now + 1000 * dev.nodeTimeoutInSec)
                     else Retry.Block((b.spent + 1) % TWO32, b.deadline)]
                && sent == old(sent) + if now > b.deadline && b.spent == dev.nodeConnectionAttempt then
                                         [Status(d, dev.statusTopic, "error")]
                                       else []
    {
      var item := GetGwtItem(table, d);
      if item.Some? {
        var dev, block := item.value, deviceItems[d];
        if now > block.deadline {
          if block.spent < dev.nodeConnectionAttempt {
            deviceItems := deviceItems[d := Retry.Block(block.spent + 1, now + dev.nodeTimeoutInSec * 1000)];
          } else {
            deviceItems := deviceItems[d := block.(spent := (block.spent + 1) % TWO32)];
            if block.spent == dev.nodeConnectionAttempt {
              SetTopic(Status(d, dev.statusTopic, "error"));
            }
          }
        }
      }
    }

    // One turn of the watchdog pass; `start` is where its publications begin.
    method CheckTurn(d: string, now: int, ghost before: Blocks, ghost todo: set<string>, ghost start: nat)
      requires start <= |sent| && d in todo
      requires Sweep.Swept(WatchdogRule(table, now), before, todo, deviceItems, sent[start..])
      modifies this`deviceItems, this`sent
      ensures start <= |sent| && sent[..start] == old(sent[..start])
      ensures Sweep.Swept(WatchdogRule(table, now), before, todo - {d}, deviceItems, sent[start..])
    {
      ghost var more := ErrorFor(table, d, deviceItems[d], now);
      Sweep.SweepTurn(WatchdogRule(table, now), before, todo, deviceItems, sent[start..], d);
      CheckDevice(d, now);
      assert sent[start..] == old(sent[start..]) + more;
    }

    // The loop of the watchdog pass: all devices, in the map's own order.
    method CheckAll(now: int)
      modifies this`deviceItems, this`sent
      ensures |old(sent)| <= |sent| && sent[..|old(sent)|] == old(sent)
      ensures Sweep.Swept(WatchdogRule(table, now), old(deviceItems), {}, deviceItems, sent[|old(sent)|..])
    {
      ghost var before, start := deviceItems, |sent|;
      var todo := deviceItems.Keys;
      Sweep.SweepStart(WatchdogRule(table, now), before);
      assert sent[start..] == [];
      while todo != {}
        invariant start <= |sent| && sent[..start] == old(sent)
        invariant Sweep.Swept(WatchdogRule(table, now), before, todo, deviceItems, sent[start..])
        decreases |todo|
      {
        var d :| d in todo;
        CheckTurn(d, now, before, todo, start);
        todo := todo - {d};
      }
    }

    // The watchdog pass over all devices: every block is checked once, each
    // device publishes its own error or nothing, and nothing else is published.
    method ProcessDeviceList(now: int)
      modifies this`deviceItems, this`sent
      ensures |old(sent)| <= |sent| && sent[..|old(sent)|] == old(sent)
      ensures Sweep.Swept(WatchdogRule(table, now), old(deviceItems), {}, deviceItems, sent[|old(sent)|..])
      ensures View() == OnTick(table, old(View()), now)
    {
      CheckAll(now);
      assert sent == old(sent) + sent[|old(sent)|..];
      PassIsTick(table, old(deviceItems), now, deviceItems, old(sent), sent[|old(sent)|..]);
    }

    // The channel loop over the fields of a message.
    method UpdateInputs(chs: seq<Channel>, data: seq<string>) returns (outcome: Outcome)
      modifies this`sent
      ensures sent == old(sent) + RouteInputs(chs, data).pubs
      ensures outcome == RouteInputs(chs, data).outcome
    {
      var i := 0;
      while i < |chs|
        invariant i <= |chs|
        invariant old(sent) + RouteInputs(chs, data).pubs == sent + RouteInputs(chs[i..], data).pubs
        invariant RouteInputs(chs, data).outcome == RouteInputs(chs[i..], data).outcome
      {
        var ch := chs[i];
        assert chs[i..][1..] == chs[i + 1..];
        if ch.number >= |data| {
          return OutOfRange;
        }
        if ch.valueMapping != [] {
          outcome := UpdateMapped(ch, data[ch.number]);
          return;
        }
        SetTopic(Input(ch.mqttTopic, data[ch.number]));
        i := i + 1;
      }
      outcome := Completed;
    }

    // The loop over the value mapping; stoi runs on every turn.
    method UpdateMapped(ch: Channel, field: string) returns (outcome: Outcome)
      requires ch.valueMapping != []
      modifies this`sent
      ensures forall data: seq<string> :: ch.number < |data| && data[ch.number] == field ==>
                sent == old(sent) + RouteInput(ch, data).pubs && outcome == RouteInput(ch, data).outcome
      ensures outcome == if Text.Stoi(field).None? then Threw else Completed
      ensures Text.Stoi(field).None? ==> sent == old(sent)
      ensures forall j: nat :: Text.Stoi(field).Some? && FirstValueAt(ch.valueMapping, Text.Stoi(field).value, j) ==>
                sent == old(sent)
                        + if j < |ch.valueMapping| then [Input(ch.mqttTopic, ch.valueMapping[j].text)] else []
    {
      var m := ch.valueMapping;
      var j := 0;
      while j < |m|
        invariant j <= |m| && sent == old(sent)
        invariant j > 0 ==> Text.Stoi(field).Some?
        invariant Text.Stoi(field).Some? ==> forall i :: 0 <= i < j ==> m[i].value != Text.Stoi(field).value
      {
        match Text.Stoi(field)
        case None => return Threw;
        case Some(v) =>
          if m[j].value == v {
            FirstByValueExact(m, v, j);
            SetTopic(Input(ch.mqttTopic, m[j].text));
            return Completed;
          }
        j := j + 1;
      }
      FirstByValueExact(m, Text.Stoi(field).value, j);
      outcome := Completed;
    }

    method SendControls(dev: Device, topic: string, msg: string)
      modifies this`sent
      ensures sent == old(sent) + RouteOutputs(dev.outputMapping, dev.outputTopic, topic, msg)
    {
      var chs := dev.outputMapping;
      var i := 0;
      while i < |chs|
        invariant i <= |chs|
        invariant old(sent) + RouteOutputs(chs, dev.outputTopic, topic, msg) ==
                  sent + RouteOutputs(chs[i..], dev.outputTopic, topic, msg)
      {
        var ch := chs[i];
        assert chs[i..][1..] == chs[i + 1..];
        if topic == ch.mqttTopic && dev.outputTopic != "" {
          if ch.valueMapping != [] {
            SendMapped(ch, dev.outputTopic, msg);
            return;
          }
          SetTopic(Control(dev.outputTopic, Text.Decimal(ch.number) + ":" + msg));
        }
        i := i + 1;
      }
    }

    method SendMapped(ch: Channel, outTopic: string, msg: string)
      requires ch.valueMapping != []
      modifies this`sent
      ensures sent == old(sent) + RouteOutput(ch, outTopic, msg)
      ensures forall j: nat :: FirstTextAt(ch.valueMapping, msg, j) ==>
                sent == old(sent)
                        + if j < |ch.valueMapping| then
                            [Control(outTopic, Text.Decimal(ch.number) + ":" + Text.Decimal(ch.valueMapping[j].value))]
                          else []
    {
      var m := ch.valueMapping;
      var j := 0;
      while j < |m|
        invariant j <= |m| && sent == old(sent)
        invariant forall i :: 0 <= i < j ==> m[i].text != msg
      {
        if m[j].text == msg {
          FirstByTextExact(m, msg, j);
          SetTopic(Control(outTopic, Text.Decimal(ch.number) + ":" + Text.Decimal(m[j].value)));
          return;
        }
        j := j + 1;
      }
      FirstByTextExact(m, msg, j);
    }

    // One turn of the device loop. The block is rearmed before the fields are
    // looked at, and "ok" is sent only after all of them were.
    method ProcessRow(dev: Device, topic: string, msg: string, now: int) returns (outcome: Outcome)
      modifies this`deviceItems, this`sent
      ensures var row := RouteRow(dev, old(deviceItems), topic, msg, now);
              deviceItems == row.blocks && sent == old(sent) + row.pubs && outcome == row.outcome
      ensures topic != dev.inputTopic ==>
                && deviceItems == old(deviceItems) && outcome == Completed
                && sent == old(sent) + RouteOutputs(dev.outputMapping, dev.outputTopic, topic, msg)
      ensures topic == dev.inputTopic && dev.devName in old(deviceItems) ==>
                && deviceItems == old(deviceItems)[dev.devName := Retry.Block(0, now + 1000 * dev.nodeTimeoutInSec)]
                && outcome == RouteFields(dev, msg).outcome
                && sent == old(sent) + RouteFields(dev, msg).pubs
                           + if outcome == Completed then [Status(dev.devName, dev.statusTopic, "ok")] else []
    {
      outcome := Completed;
      if topic == dev.inputTopic {
        if dev.devName in deviceItems {
          deviceItems := deviceItems[dev.devName := Rearmed(dev, now)];
          var data := ParseIncomingTopic(msg, ',');
          if |data| == |dev.inputMapping| {
            outcome := UpdateInputs(dev.inputMapping, data);
          }
          if outcome == Completed {
            SetTopic(Status(dev.devName, dev.statusTopic, "ok"));
          }
        }
      } else {
        SendControls(dev, topic, msg);
      }
    }

    method ProcessTopicUpdate(topic: string, msg: string, clock: seq<int>) returns (outcome: Outcome)
      requires |clock| == |table|
      modifies this`deviceItems, this`sent
      ensures var effect := RouteTable(table, |table|, old(deviceItems), topic, msg, clock);
              deviceItems == effect.blocks && sent == old(sent) + effect.pubs && outcome == effect.outcome
      ensures View() == OnUpdate(table, old(View()), topic, msg, clock)
    {
      outcome := Completed;
      var i := 0;
      while i < |table| && outcome == Completed
        invariant i <= |table|
        invariant var effect := RouteTable(table, i, old(deviceItems), topic, msg, clock);
                  deviceItems == effect.blocks && sent == old(sent) + effect.pubs && outcome == effect.outcome
      {
        outcome := ProcessRow(table[i], topic, msg, clock[i]);
        i := i + 1;
      }
      StopsAt(i, old(deviceItems), topic, msg, clock);
      RouteIsUpdate(table, old(deviceItems), old(sent), topic, msg, clock);
    }

    // Rows after one that threw contribute nothing.
    lemma {:induction false} StopsAt(i: nat, blocks: Blocks, topic: string, msg: string, clock: seq<int>)
      requires |clock| == |table| && i <= |table|
      requires i == |table| || RouteTable(table, i, blocks, topic, msg, clock).outcome != Completed
      ensures RouteTable(table, |table|, blocks, topic, msg, clock) == RouteTable(table, i, blocks, topic, msg, clock)
      decreases |table| - i
    {
      if i < |table| {
        StopsAt(i + 1, blocks, topic, msg, clock);
      }
    }

    // The event callback: an exception becomes one component_level report.
    method MqttEventProcessFunc(topic: string, msg: string, clock: seq<int>)
      requires |clock| == |table|
      modifies this
      ensures View() == OnUpdate(table, old(View()), topic, msg, clock)
      ensures var effect := RouteTable(table, |table|, old(deviceItems), topic, msg, clock);
              && deviceItems == effect.blocks && sent == old(sent) + effect.pubs
              && reports == old(reports) + if effect.outcome == Threw then 1 else 0
    {
      var outcome := ProcessTopicUpdate(topic, msg, clock);
      if outcome == Threw {
        reports := reports + 1;
      }
    }
  }
}
