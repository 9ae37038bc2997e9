// The MQTT connection and the broker's session behind it.
module Mqtt {
  // ---------------------------------------------------------------- model

  // `connected`: m_conn_status is CONNECTED. `topics`: m_topics_list.
  // `session`: the subscriptions the broker holds for this client. A clean
  // session starts empty on every successful connect and ends with the
  // connection (section 3.1.2.4 of MQTT 3.1.1).
  datatype State = State(connected: bool, topics: seq<string>, session: set<string>)

  datatype Event =
    | Subscribe(topic: string)
    | Connect(rc: int)
    | Disconnect

  function Elements(topics: seq<string>): set<string> {
    set t | t in topics
  }

  function Subscribed(s: State, topic: string): State {
    State(s.connected, s.topics + [topic], if s.connected then s.session + {topic} else s.session)
  }

  function Connected(s: State, clean: bool, rc: int): State {
    if rc == 0 then State(true, s.topics, (if clean then {} else s.session) + Elements(s.topics))
    else Disconnected(s, clean)
  }

  function Disconnected(s: State, clean: bool): State {
    State(false, s.topics, if clean then {} else s.session)
  }

  function Next(s: State, clean: bool, e: Event): State {
    match e
    case Subscribe(topic) => Subscribed(s, topic)
    case Connect(rc) => Connected(s, clean, rc)
    case Disconnect => Disconnected(s, clean)
  }

  const INITIAL := State(false, [], {})

  function After(s: State, clean: bool, es: seq<Event>): State {
    if es == [] then s else Next(After(s, clean, es[..|es| - 1]), clean, es[|es| - 1])
  }

  // The topics of all subscribe calls of a run, in order.
  function Requested(es: seq<Event>): seq<string> {
    if es == [] then []
    else Requested(es[..|es| - 1]) + if es[|es| - 1].Subscribe? then [es[|es| - 1].topic] else []
  }

  // Subscription replay: on every run, whenever the status is CONNECTED the
  // broker delivers exactly the topics ever subscribed; a clean session holds
  // nothing while disconnected and a kept one never more than was requested.
  lemma {:induction false} Replay(clean: bool, es: seq<Event>)
    ensures var s := After(INITIAL, clean, es);
            && s.topics == Requested(es)
            && (s.connected ==> s.session == Elements(Requested(es)))
            && (!s.connected && clean ==> s.session == {})
            && s.session <= Elements(Requested(es))
  {
    if es != [] {
      Replay(clean, es[..|es| - 1]);
      var s := After(INITIAL, clean, es[..|es| - 1]);
      if es[|es| - 1].Subscribe? {
        ElementsAppend(s.topics, es[|es| - 1].topic);
      }
    }
  }

  // The event decides the status: any connect, successful or not, and any
  // disconnect.
  predicate Decides(e: Event) {
    e.Connect? || e.Disconnect?
  }

  // The status is CONNECTED exactly when the last connect or disconnect was a
  // successful connect.
  lemma {:induction false} StatusExact(clean: bool, es: seq<Event>)
    ensures After(INITIAL, clean, es).connected <==> LastIsConnect(es)
  {
    if es != [] {
      StatusExact(clean, es[..|es| - 1]);
    }
  }

  ghost predicate LastIsConnect(es: seq<Event>) {
    es != [] &&
    var e := es[|es| - 1];
    if Decides(e) then e.Connect? && e.rc == 0 else LastIsConnect(es[..|es| - 1])
  }

  // A kept session only grows.
  lemma {:induction false} KeptSessionGrows(s: State, es: seq<Event>)
    ensures s.session <= After(s, false, es).session
  {
    if es != [] {
      KeptSessionGrows(s, es[..|es| - 1]);
    }
  }

  lemma {:induction false} ElementsAppend(topics: seq<string>, topic: string)
    ensures Elements(topics + [topic]) == Elements(topics) + {topic}
  {
    forall t | t in Elements(topics) + {topic}
      ensures t in topics + [topic]
    {
      if t == topic {
        assert (topics + [topic])[|topics|] == topic;
      } else {
        assert t in topics;
      }
    }
  }

  // ---------------------------------------------------------------- race

  // subscribeTopic in two halves: ask the broker if connected, then store the
  // topic. Connection events of mosquitto's thread can fall in between.
  function Asked(s: State, topic: string): State {
    if s.connected then s.(session := s.session + {topic}) else s
  }

  function Stored(s: State, topic: string): State {
    s.(topics := s.topics + [topic])
  }

  ghost predicate Replayed(s: State) {
    s.connected ==> s.session == Elements(s.topics)
  }

  ghost predicate NoSubscribe(es: seq<Event>) {
    forall i :: 0 <= i < |es| ==> !es[i].Subscribe?
  }

  predicate IsConnect(e: Event) {
    e.Connect? && e.rc == 0
  }

  ghost predicate SomeConnect(es: seq<Event>) {
    exists i :: 0 <= i < |es| && IsConnect(es[i])
  }

  lemma {:induction false} SomeConnectAppend(es: seq<Event>, e: Event)
    ensures SomeConnect(es + [e]) <==> SomeConnect(es) || IsConnect(e)
  {
    if SomeConnect(es) {
      var i :| 0 <= i < |es| && IsConnect(es[i]);
      assert IsConnect((es + [e])[i]);
    }
    if IsConnect(e) {
      assert IsConnect((es + [e])[|es|]);
    }
  }

  // What connection events without a subscription leave of a session.
  function Between(s: State, clean: bool, reconnected: bool): set<string> {
    if reconnected then (if clean then {} else s.session) + Elements(s.topics) else s.session
  }

  lemma {:induction false} BetweenHalves(s: State, clean: bool, es: seq<Event>)
    requires NoSubscribe(es)
    ensures var t := After(s, clean, es);
            && t.topics == s.topics
            && (t.connected ==> s.connected || SomeConnect(es))
            && (t.connected || !clean ==> t.session == Between(s, clean, SomeConnect(es)))
  {
    if es != [] {
      var init, e := es[..|es| - 1], es[|es| - 1];
      BetweenHalves(s, clean, init);
      SomeConnectAppend(init, e);
      assert init + [e] == es;
    }
  }

  // An interrupted subscribeTopic that ends connected leaves the session
  // complete exactly when the topic was stored before or, with a clean session,
  // no successful connect fell between its halves and, with a kept one, it
  // began while connected.
  lemma {:induction false} InterruptedSubscribe(s: State, clean: bool, topic: string, es: seq<Event>)
    requires Replayed(s) && s.session <= Elements(s.topics) && NoSubscribe(es)
    ensures var t := Stored(After(Asked(s, topic), clean, es), topic);
            t.connected ==>
              (Replayed(t) <==> topic in s.topics || if clean then !SomeConnect(es) else s.connected)
  {
    BetweenHalves(Asked(s, topic), clean, es);
    ElementsAppend(s.topics, topic);
  }

  // ---------------------------------------------------------------- object

  // What the client hands to mosquitto.
  datatype Packet = SubscribePacket(topic: string) | PublishPacket(topic: string, payload: string)

  function SubscribePackets(topics: seq<string>): seq<Packet> {
    if topics == [] then []
    else SubscribePackets(topics[..|topics| - 1]) + [SubscribePacket(topics[|topics| - 1])]
  }

  // Several subscriptions in a row.
  function SubscribedAll(s: State, topics: seq<string>): State {
    State(s.connected, s.topics + topics, if s.connected then s.session + Elements(topics) else s.session)
  }

  // What they put on the wire.
  function Packets(s: State, topics: seq<string>): seq<Packet> {
    if s.connected then SubscribePackets(topics) else []
  }

  lemma {:induction false} PacketsAppend(a: seq<string>, b: seq<string>)
    ensures SubscribePackets(a + b) == SubscribePackets(a) + SubscribePackets(b)
  {
    if b == [] {
      assert a + b == a;
    } else {
      PacketsAppend(a, b[..|b| - 1]);
      assert (a + b)[..|a + b| - 1] == a + b[..|b| - 1];
    }
  }

  lemma {:induction false} PacketsOne(topic: string)
    ensures SubscribePackets([topic]) == [SubscribePacket(topic)] && Elements([topic]) == {topic}
  {
    assert [topic][..0] == [];
  }

  lemma {:induction false} ElementsConcat(a: seq<string>, b: seq<string>)
    ensures Elements(a + b) == Elements(a) + Elements(b)
  {
    if b == [] {
      assert a + b == a;
    } else {
      var init, last := b[..|b| - 1], b[|b| - 1];
      ElementsConcat(a, init);
      ElementsAppend(a + init, last);
      ElementsAppend(init, last);
      assert a + b == (a + init) + [last] && b == init + [last];
    }
  }

  lemma {:induction false} SubscribedAgain(s: State, a: seq<string>, b: seq<string>)
    ensures SubscribedAll(SubscribedAll(s, a), b) == SubscribedAll(s, a + b)
    ensures Packets(s, a) + Packets(s, b) == Packets(s, a + b)
  {
    ElementsConcat(a, b);
    PacketsAppend(a, b);
    assert (s.topics + a) + b == s.topics + (a + b);
  }

  class CMqttConnection {
    var connected: bool
    var topicsList: seq<string>
    var wire: seq<Packet>
    // The broker's side.
    var clean: bool
    var session: set<string>

    ghost function Snapshot(): State
      reads this
    {
      State(connected, topicsList, session)
    }

    // Since `before`, with `wire` sent, the topics were subscribed in a row.
    ghost predicate Added(before: State, wire: seq<Packet>, topics: seq<string>)
      reads this
    {
      && Snapshot() == SubscribedAll(before, topics)
      && this.wire == wire + Packets(before, topics)
    }

    constructor (clean: bool)
      ensures Snapshot() == INITIAL && this.clean == clean && wire == []
    {
      connected, topicsList, wire, this.clean, session := false, [], [], clean, {};
    }

    method BrokerSubscribe(topic: string)
      modifies this`wire, this`session
      ensures wire == old(wire) + [SubscribePacket(topic)]
      ensures session == old(session) + {topic}
    {
      wire := wire + [SubscribePacket(topic)];
      session := session + {topic};
    }

    method SubscribeTopic(topic: string)
      modifies this`wire, this`session, this`topicsList
      ensures Snapshot() == Subscribed(old(Snapshot()), topic)
      ensures wire == old(wire) + if connected then [SubscribePacket(topic)] else []
    {
      if connected {
        BrokerSubscribe(topic);
      }
      topicsList := topicsList + [topic];
    }

    // A message set while disconnected is dropped.
    method SetTopic(topic: string, msg: string)
      modifies this`wire
      ensures wire == old(wire) + if connected then [PublishPacket(topic, msg)] else []
    {
      if connected {
        wire := wire + [PublishPacket(topic, msg)];
      }
    }

    // The resubscription loop of on_connect.
    method Resubscribe()
      modifies this`wire, this`session
      ensures session == old(session) + Elements(topicsList)
      ensures wire == old(wire) + SubscribePackets(topicsList)
    {
      for i := 0 to |topicsList|
        invariant session == old(session) + Elements(topicsList[..i])
        invariant wire == old(wire) + SubscribePackets(topicsList[..i])
      {
        ElementsAppend(topicsList[..i], topicsList[i]);
        assert topicsList[..i + 1] == topicsList[..i] + [topicsList[i]];
        assert topicsList[..i + 1][..i] == topicsList[..i];
        BrokerSubscribe(topicsList[i]);
      }
      assert topicsList[..|topicsList|] == topicsList;
    }

    method OnConnect(rc: int)
      modifies this`connected, this`wire, this`session
      ensures Snapshot() == Connected(old(Snapshot()), clean, rc)
      ensures wire == old(wire) + if rc == 0 then SubscribePackets(topicsList) else []
    {
      // What the broker did with the CONNECT.
      if clean {
        session := {};
      }
      if rc == 0 {
        connected := true;
        Resubscribe();
      } else {
        connected := false;
      }
    }

    method OnDisconnect()
      modifies this`connected, this`session
      ensures Snapshot() == Disconnected(old(Snapshot()), clean)
    {
      connected := false;
      if clean {
        session := {};
      }
    }
  }
}
