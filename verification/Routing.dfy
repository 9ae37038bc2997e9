// What one message does to the device blocks and to the topics the bridge
// sets, as functions of the device table.
module Routing {
  import opened Common
  import opened DeviceTable
  import opened Text

  // One setTopic call, by the place it is made from.
  datatype Publication =
    | Input(topic: string, payload: string)
    | Control(topic: string, payload: string)
    | Status(device: string, topic: string, payload: string)

  // Completed: ran to the end. Threw: stoi threw. OutOfRange: a field was
  // indexed past the end of the message, which C++ leaves undefined.
  datatype Outcome = Completed | Threw | OutOfRange

  datatype Routed = Routed(pubs: seq<Publication>, outcome: Outcome)

  function Then(first: Routed, second: Routed): Routed {
    if first.outcome != Completed then first else Routed(first.pubs + second.pubs, second.outcome)
  }

  // ---------------------------------------------------------------- inputs

  function RouteInput(ch: Channel, data: seq<string>): Routed {
    if ch.number >= |data| then Routed([], OutOfRange)
    else if ch.valueMapping == [] then Routed([Input(ch.mqttTopic, data[ch.number])], Completed)
    else
      match Stoi(data[ch.number])
      case None => Routed([], Threw)
      case Some(v) =>
        match FirstByValue(ch.valueMapping, v)
        case None => Routed([], Completed)
        case Some(text) => Routed([Input(ch.mqttTopic, text)], Completed)
  }

  // The channel loop as it is: it is left after the first mapped channel.
  function RouteInputs(chs: seq<Channel>, data: seq<string>): Routed {
    if chs == [] then Routed([], Completed)
    else if chs[0].valueMapping != [] then RouteInput(chs[0], data)
    else Then(RouteInput(chs[0], data), RouteInputs(chs[1..], data))
  }

  // The channel loop without that break.
  function EveryInput(chs: seq<Channel>, data: seq<string>): Routed {
    if chs == [] then Routed([], Completed)
    else Then(RouteInput(chs[0], data), EveryInput(chs[1..], data))
  }

  // The channels up to and including the first mapped one.
  function ThroughFirstMapped(chs: seq<Channel>): (r: seq<Channel>)
    ensures r <= chs
  {
    if chs == [] then [] else [chs[0]] + if chs[0].valueMapping != [] then [] else ThroughFirstMapped(chs[1..])
  }

  // No mapped channel precedes another channel.
  ghost predicate MappedOnlyLast(chs: seq<Channel>) {
    forall i :: 0 <= i < |chs| - 1 ==> chs[i].valueMapping == []
  }

  lemma {:induction false} ThroughAll(chs: seq<Channel>)
    ensures ThroughFirstMapped(chs) == chs <==> MappedOnlyLast(chs)
  {
    if chs != [] {
      ThroughAll(chs[1..]);
      assert chs == [chs[0]] + chs[1..];
      assert |chs| > 1 ==> (MappedOnlyLast(chs) <==> chs[0].valueMapping == [] && MappedOnlyLast(chs[1..])) by {
        assert forall i :: 0 < i < |chs| ==> chs[i] == chs[1..][i - 1];
      }
      if |chs| > 1 && chs[0].valueMapping != [] {
        assert |ThroughFirstMapped(chs)| == 1;
      }
    }
  }

  lemma {:induction false} InputsThroughFirstMapped(chs: seq<Channel>, data: seq<string>)
    ensures RouteInputs(chs, data) == EveryInput(ThroughFirstMapped(chs), data)
  {
    if chs != [] {
      var t := ThroughFirstMapped(chs);
      if chs[0].valueMapping != [] {
        assert t == [chs[0]] && EveryInput(t[1..], data) == Routed([], Completed);
        assert RouteInput(chs[0], data).pubs + [] == RouteInput(chs[0], data).pubs;
      } else {
        InputsThroughFirstMapped(chs[1..], data);
        assert t[1..] == ThroughFirstMapped(chs[1..]);
      }
    }
  }

  ghost predicate NumbersInRange(chs: seq<Channel>, n: nat) {
    forall i :: 0 <= i < |chs| ==> chs[i].number < n
  }

  // Channels without a mapping forward their fields unchanged, in order.
  function RawPubs(chs: seq<Channel>, data: seq<string>): seq<Publication>
    requires NumbersInRange(chs, |data|)
  {
    seq(|chs|, i requires 0 <= i < |chs| => Input(chs[i].mqttTopic, data[chs[i].number]))
  }

  lemma {:induction false} RawInputs(chs: seq<Channel>, data: seq<string>)
    requires NumbersInRange(chs, |data|) && forall i :: 0 <= i < |chs| ==> chs[i].valueMapping == []
    ensures EveryInput(chs, data) == Routed(RawPubs(chs, data), Completed)
  {
    if chs != [] {
      RawInputs(chs[1..], data);
      assert RawPubs(chs, data) == [Input(chs[0].mqttTopic, data[chs[0].number])] + RawPubs(chs[1..], data);
    }
  }

  lemma {:induction false} EveryInputSplit(chs: seq<Channel>, more: seq<Channel>, data: seq<string>)
    ensures EveryInput(chs + more, data) == Then(EveryInput(chs, data), EveryInput(more, data))
  {
    if chs == [] {
      assert chs + more == more;
      ThenNothing(EveryInput(more, data));
    } else {
      var first, rest, last := RouteInput(chs[0], data), EveryInput(chs[1..], data), EveryInput(more, data);
      assert (chs + more)[0] == chs[0] && (chs + more)[1..] == chs[1..] + more;
      EveryInputSplit(chs[1..], more, data);
      assert EveryInput(chs + more, data) == Then(first, Then(rest, last));
      ThenAssociates(first, rest, last);
    }
  }

  lemma {:induction false} ThenNothing(r: Routed)
    ensures Then(Routed([], Completed), r) == r
  {
    assert [] + r.pubs == r.pubs;
  }

  lemma {:induction false} ThenAssociates(a: Routed, b: Routed, c: Routed)
    ensures Then(Then(a, b), c) == Then(a, Then(b, c))
  {
    assert (a.pubs + b.pubs) + c.pubs == a.pubs + (b.pubs + c.pubs);
  }

  // Exact effect of the loop: with k unmapped channels in front, their raw
  // fields, then whatever the first mapped channel does, and nothing else.
  lemma {:induction false} InputsExact(chs: seq<Channel>, data: seq<string>, k: nat)
    requires NumbersInRange(chs, |data|) && k <= |chs|
    requires forall i :: 0 <= i < k ==> chs[i].valueMapping == []
    requires k < |chs| ==> chs[k].valueMapping != []
    ensures RouteInputs(chs, data) ==
            if k == |chs| then Routed(RawPubs(chs, data), Completed)
            else Then(Routed(RawPubs(chs[..k], data), Completed), RouteInput(chs[k], data))
  {
    InputsThroughFirstMapped(chs, data);
    ThroughIs(chs, k);
    RawInputs(chs[..k], data);
    assert chs[..|chs|] == chs;
    if k < |chs| {
      EveryInputSplit(chs[..k], [chs[k]], data);
      assert [chs[k]][1..] == [];
      assert RouteInput(chs[k], data).pubs + [] == RouteInput(chs[k], data).pubs;
    }
  }

  lemma {:induction false} ThroughIs(chs: seq<Channel>, k: nat)
    requires k <= |chs| && forall i :: 0 <= i < k ==> chs[i].valueMapping == []
    requires k < |chs| ==> chs[k].valueMapping != []
    ensures ThroughFirstMapped(chs) == if k == |chs| then chs else chs[..k] + [chs[k]]
  {
    if k > 0 {
      var rest := chs[1..];
      ThroughIs(rest, k - 1);
      assert ThroughFirstMapped(chs) == [chs[0]] + ThroughFirstMapped(rest);
      if k == |chs| {
        assert chs == [chs[0]] + rest;
      } else {
        assert chs[..k] == [chs[0]] + rest[..k - 1] && rest[k - 1] == chs[k];
      }
    }
  }

  // Fields on which channel `ch` certainly publishes and none throws: every
  // field is the decimal of the first mapped value.
  function WitnessData(ch: Channel, n: nat): seq<string> {
    seq(n, i => Decimal(if ch.valueMapping == [] then 0 else ch.valueMapping[0].value))
  }

  // They are the fields of a message.
  lemma {:induction false} WitnessIsMessage(ch: Channel, n: nat)
    requires n > 0
    ensures Split(Join(WitnessData(ch, n), ','), ',') == WitnessData(ch, n)
  {
    DecimalValue(if ch.valueMapping == [] then 0 else ch.valueMapping[0].value);
    assert !IsDigit(',');
    SplitOfJoin(WitnessData(ch, n), ',');
  }

  lemma {:induction false} WitnessRoutes(ch: Channel, other: Channel, n: nat)
    requires ch.number < n && other.number < n
    ensures RouteInput(ch, WitnessData(ch, n)).outcome == Completed
    ensures |RouteInput(ch, WitnessData(ch, n)).pubs| == 1
    ensures RouteInput(other, WitnessData(ch, n)).outcome == Completed
  {
    var v := if ch.valueMapping == [] then 0 else ch.valueMapping[0].value;
    StoiDecimal("", "", v, "");
    assert "" + ("" + (Decimal(v) + "")) == Decimal(v);
  }

  lemma {:induction false} WitnessCompletes(ch: Channel, chs: seq<Channel>, n: nat)
    requires ch.number < n && NumbersInRange(chs, n)
    ensures EveryInput(chs, WitnessData(ch, n)).outcome == Completed
  {
    if chs != [] {
      WitnessRoutes(ch, chs[0], n);
      WitnessCompletes(ch, chs[1..], n);
    }
  }

  // The loop without the break does the same on this message, if it has one
  // field for every channel.
  ghost predicate BreakHarmless(chs: seq<Channel>, msg: string) {
    var data := Split(msg, ',');
    |data| == |chs| ==> RouteInputs(chs, data) == EveryInput(chs, data)
  }

  // Every channel is published on every message exactly when no mapped channel
  // precedes another one.
  lemma {:induction false} BreakHarmlessIff(chs: seq<Channel>)
    requires NumbersInRange(chs, |chs|)
    ensures (forall msg: string :: BreakHarmless(chs, msg)) <==> MappedOnlyLast(chs)
  {
    ThroughAll(chs);
    if MappedOnlyLast(chs) {
      forall msg: string
        ensures BreakHarmless(chs, msg)
      {
        InputsThroughFirstMapped(chs, Split(msg, ','));
      }
    } else {
      var msg := BreakLoses(chs);
    }
  }

  lemma {:induction false} BreakLoses(chs: seq<Channel>) returns (msg: string)
    requires NumbersInRange(chs, |chs|) && !MappedOnlyLast(chs)
    ensures !BreakHarmless(chs, msg)
  {
    ThroughAll(chs);
    var t := ThroughFirstMapped(chs);
    var rest := chs[|t|..];
    assert chs == t + rest && rest != [];
    var data := WitnessData(rest[0], |chs|);
    WitnessIsMessage(rest[0], |chs|);
    msg := Join(data, ',');
    assert forall i :: 0 <= i < |t| ==> t[i] == chs[i];
    assert rest[0] == chs[|t|];
    WitnessCompletes(rest[0], t, |chs|);
    InputsThroughFirstMapped(chs, data);
    EveryInputSplit(t, rest, data);
    WitnessPublishes(rest, |chs|);
  }

  lemma {:induction false} WitnessPublishes(chs: seq<Channel>, n: nat)
    requires chs != [] && chs[0].number < n
    ensures EveryInput(chs, WitnessData(chs[0], n)).pubs != []
  {
    WitnessRoutes(chs[0], chs[0], n);
  }

  function FirstMapped(chs: seq<Channel>): (ch: Option<Channel>)
    ensures ch.Some? ==> ch.value in chs && ch.value.valueMapping != []
  {
    if chs == [] then None else if chs[0].valueMapping != [] then Some(chs[0]) else FirstMapped(chs[1..])
  }

  // With every number in range, the fields are processed to the end unless
  // stoi throws on the field of the first mapped channel.
  lemma {:induction false} InputsOutcomeExact(chs: seq<Channel>, data: seq<string>)
    requires NumbersInRange(chs, |data|)
    ensures RouteInputs(chs, data).outcome ==
            match FirstMapped(chs)
            case None => Completed
            case Some(ch) => if Stoi(data[ch.number]).None? then Threw else Completed
  {
    if chs != [] && chs[0].valueMapping == [] {
      InputsOutcomeExact(chs[1..], data);
    }
  }

  // What is published, spelled out: k is the first mapped channel, if there is
  // one, and j the first place of its mapping with the value of its field. The
  // raw fields of the channels before k go out, and then the mapped text.
  lemma {:induction false} InputsPublished(chs: seq<Channel>, data: seq<string>, k: nat, j: nat)
    requires NumbersInRange(chs, |data|) && k < |chs| && chs[k].valueMapping != []
    requires forall i :: 0 <= i < k ==> chs[i].valueMapping == []
    requires Stoi(data[chs[k].number]).Some? ==> FirstValueAt(chs[k].valueMapping, Stoi(data[chs[k].number]).value, j)
    ensures var raw, ch := RawPubs(chs[..k], data), chs[k];
            RouteInputs(chs, data) ==
            if Stoi(data[ch.number]).None? then Routed(raw, Threw)
            else if j < |ch.valueMapping| then Routed(raw + [Input(ch.mqttTopic, ch.valueMapping[j].text)], Completed)
            else Routed(raw, Completed)
  {
    InputsExact(chs, data, k);
    assert RawPubs(chs[..k], data) + [] == RawPubs(chs[..k], data);
    if Stoi(data[chs[k].number]).Some? {
      FirstByValueExact(chs[k].valueMapping, Stoi(data[chs[k].number]).value, j);
    }
  }

  // ---------------------------------------------------------------- outputs

  function RouteOutput(ch: Channel, outTopic: string, msg: string): seq<Publication> {
    if ch.valueMapping == [] then [Control(outTopic, Command(ch.number, msg))]
    else
      match FirstByText(ch.valueMapping, msg)
      case None => []
      case Some(v) => [Control(outTopic, Command(ch.number, Decimal(v)))]
  }

  predicate Addressed(ch: Channel, outTopic: string, topic: string) {
    topic == ch.mqttTopic && outTopic != ""
  }

  // The output loop as it is, left after the first mapped channel addressed.
  function RouteOutputs(chs: seq<Channel>, outTopic: string, topic: string, msg: string): seq<Publication> {
    if chs == [] then []
    else if !Addressed(chs[0], outTopic, topic) then RouteOutputs(chs[1..], outTopic, topic, msg)
    else if chs[0].valueMapping != [] then RouteOutput(chs[0], outTopic, msg)
    else RouteOutput(chs[0], outTopic, msg) + RouteOutputs(chs[1..], outTopic, topic, msg)
  }

  function AddressedOnly(chs: seq<Channel>, outTopic: string, topic: string): seq<Channel> {
    if chs == [] then []
    else (if Addressed(chs[0], outTopic, topic) then [chs[0]] else []) + AddressedOnly(chs[1..], outTopic, topic)
  }

  function EveryOutput(chs: seq<Channel>, outTopic: string, msg: string): seq<Publication> {
    if chs == [] then [] else RouteOutput(chs[0], outTopic, msg) + EveryOutput(chs[1..], outTopic, msg)
  }

  lemma {:induction false} OutputsThroughFirstMapped(chs: seq<Channel>, outTopic: string, topic: string, msg: string)
    ensures RouteOutputs(chs, outTopic, topic, msg) ==
            EveryOutput(ThroughFirstMapped(AddressedOnly(chs, outTopic, topic)), outTopic, msg)
  {
    if chs != [] {
      var on, rest := AddressedOnly(chs, outTopic, topic), AddressedOnly(chs[1..], outTopic, topic);
      OutputsThroughFirstMapped(chs[1..], outTopic, topic, msg);
      if Addressed(chs[0], outTopic, topic) {
        assert on[0] == chs[0] && on[1..] == rest;
        var t := ThroughFirstMapped(on);
        if chs[0].valueMapping != [] {
          assert t == [chs[0]] && EveryOutput(t[1..], outTopic, msg) == [];
        } else {
          assert t[1..] == ThroughFirstMapped(rest);
        }
      } else {
        assert on == rest;
      }
    }
  }

  lemma {:induction false} EveryOutputSplit(chs: seq<Channel>, more: seq<Channel>, outTopic: string, msg: string)
    ensures EveryOutput(chs + more, outTopic, msg) ==
            EveryOutput(chs, outTopic, msg) + EveryOutput(more, outTopic, msg)
  {
    if chs == [] {
      assert chs + more == more;
    } else {
      EveryOutputSplit(chs[1..], more, outTopic, msg);
      assert (chs + more)[0] == chs[0] && (chs + more)[1..] == chs[1..] + more;
      ConcatAssociates(RouteOutput(chs[0], outTopic, msg),
                       EveryOutput(chs[1..], outTopic, msg), EveryOutput(more, outTopic, msg));
    }
  }

  lemma {:induction false} ConcatAssociates(a: seq<Publication>, b: seq<Publication>, c: seq<Publication>)
    ensures (a + b) + c == a + (b + c)
  {
  }

  // Every channel on the topic answers every message exactly when no mapped
  // one precedes another of them.
  lemma {:induction false} OutputBreakHarmlessIff(chs: seq<Channel>, outTopic: string, topic: string)
    ensures var on := AddressedOnly(chs, outTopic, topic);
            (forall msg: string :: RouteOutputs(chs, outTopic, topic, msg) == EveryOutput(on, outTopic, msg))
            <==> MappedOnlyLast(on)
  {
    var on := AddressedOnly(chs, outTopic, topic);
    ThroughAll(on);
    if MappedOnlyLast(on) {
      forall msg: string
        ensures RouteOutputs(chs, outTopic, topic, msg) == EveryOutput(on, outTopic, msg)
      {
        OutputsThroughFirstMapped(chs, outTopic, topic, msg);
      }
    } else {
      var msg := OutputBreakLoses(on, outTopic);
      OutputsThroughFirstMapped(chs, outTopic, topic, msg);
    }
  }

  lemma {:induction false} OutputBreakLoses(on: seq<Channel>, outTopic: string) returns (msg: string)
    requires !MappedOnlyLast(on)
    ensures EveryOutput(ThroughFirstMapped(on), outTopic, msg) != EveryOutput(on, outTopic, msg)
  {
    var t := ThroughFirstMapped(on);
    ThroughAll(on);
    var rest := on[|t|..];
    assert on == t + rest && rest != [];
    msg := if rest[0].valueMapping == [] then "" else rest[0].valueMapping[0].text;
    EveryOutputSplit(t, rest, outTopic, msg);
    assert RouteOutput(rest[0], outTopic, msg) != [];
  }

  // The unmapped channels on the topic, each with its number and the message.
  function RawControls(chs: seq<Channel>, outTopic: string, topic: string, msg: string): seq<Publication> {
    if chs == [] then []
    else
      (if chs[0].mqttTopic == topic then [Control(outTopic, Decimal(chs[0].number) + ":" + msg)] else [])
      + RawControls(chs[1..], outTopic, topic, msg)
  }

  // k is the first mapped channel on the topic, or the number of channels.
  ghost predicate FirstMappedOn(chs: seq<Channel>, topic: string, k: nat) {
    && k <= |chs| && (forall i :: 0 <= i < k && chs[i].mqttTopic == topic ==> chs[i].valueMapping == [])
    && (k < |chs| ==> chs[k].mqttTopic == topic && chs[k].valueMapping != [])
  }

  // What is sent, spelled out: without an output topic nothing. Else every
  // channel on the message's topic before k gets its number and the message,
  // and then channel k its number and the first value mapped to the message.
  lemma {:induction false} OutputsExact(chs: seq<Channel>, outTopic: string, topic: string, msg: string, k: nat, j: nat)
    requires FirstMappedOn(chs, topic, k)
    requires k < |chs| ==> FirstTextAt(chs[k].valueMapping, msg, j)
    ensures RouteOutputs(chs, outTopic, topic, msg) ==
            if outTopic == "" then []
            else RawControls(chs[..k], outTopic, topic, msg)
                 + if k < |chs| && j < |chs[k].valueMapping| then
                     [Control(outTopic, Decimal(chs[k].number) + ":" + Decimal(chs[k].valueMapping[j].value))]
                   else []
  {
    if outTopic == "" {
      NothingWithoutTopic(chs, topic, msg);
    } else {
      OutputsSplitAt(chs, outTopic, topic, msg, k);
      if k < |chs| {
        FirstByTextExact(chs[k].valueMapping, msg, j);
      }
    }
  }

  lemma {:induction false} NothingWithoutTopic(chs: seq<Channel>, topic: string, msg: string)
    ensures RouteOutputs(chs, "", topic, msg) == []
  {
    if chs != [] {
      NothingWithoutTopic(chs[1..], topic, msg);
    }
  }

  lemma {:induction false} OutputsSplitAt(chs: seq<Channel>, outTopic: string, topic: string, msg: string, k: nat)
    requires FirstMappedOn(chs, topic, k) && outTopic != ""
    ensures RouteOutputs(chs, outTopic, topic, msg) ==
            RawControls(chs[..k], outTopic, topic, msg) + if k < |chs| then RouteOutput(chs[k], outTopic, msg) else []
  {
    if k == 0 {
      assert [] + RouteOutputs(chs, outTopic, topic, msg) == RouteOutputs(chs, outTopic, topic, msg);
    } else {
      var rest, last := chs[1..], if k < |chs| then RouteOutput(chs[k], outTopic, msg) else [];
      OutputsSplitAt(rest, outTopic, topic, msg, k - 1);
      assert chs[..k][0] == chs[0] && chs[..k][1..] == rest[..k - 1];
      if chs[0].mqttTopic == topic {
        ConcatAssociates(RouteOutput(chs[0], outTopic, msg), RawControls(rest[..k - 1], outTopic, topic, msg), last);
      }
    }
  }

  // A mapped control message can be decoded: the channel number and, through
  // the mapping, the very text that was sent.
  lemma {:induction false} ControlDecodes(ch: Channel, outTopic: string, msg: string)
    requires RouteOutput(ch, outTopic, msg) != []
    ensures |RouteOutput(ch, outTopic, msg)| == 1
    ensures var control := RouteOutput(ch, outTopic, msg)[0].payload;
            && ParseCommand(control).Some?
            && var (number, payload) := ParseCommand(control).value;
            && number == ch.number
            && (ch.valueMapping == [] ==> payload == msg)
            && (ch.valueMapping != [] && DistinctValues(ch.valueMapping) ==>
                  Stoi(payload).Some? && FirstByValue(ch.valueMapping, Stoi(payload).value) == Some(msg))
  {
    if ch.valueMapping == [] {
      CommandRoundTrip(ch.number, msg);
    } else {
      var v := FirstByText(ch.valueMapping, msg).value;
      CommandRoundTrip(ch.number, Decimal(v));
      StoiDecimal("", "", v, "");
      assert "" + ("" + (Decimal(v) + "")) == Decimal(v);
      if DistinctValues(ch.valueMapping) {
        MappingRoundTrip(ch.valueMapping, msg, 0);
      }
    }
  }
}
