// The shipped component list, with what its libraries depend on and offer.
module Shipped {
  import opened Common
  import opened OrderedMap
  import opened Registry
  import opened ComponentManager
  import opened ErrorPipeline
  import opened Launcher

  const FINAL_HAVEN := Entry("FinalHaven", "System::IFinalHaven")
  const EXECUTOR := Entry("Executor", "System::IExecutor")
  const CONN_MAN := Entry("ConnMan", "System::IConnMan")
  const MQTT_CONN := Entry("MqttConn", "Mqtt::IMqttConnection")
  const BRIDGE := Entry("WirelessBridge", "WBridge::IWirelessBridge")

  const CONFIG := [
    ConfigEntry("final_haven", "system/components/finalhaven/libfinalhaven.so"),
    ConfigEntry("executor", "system/components/executor/libexecutor.so"),
    ConfigEntry("connman", "system/components/connman/libconnman.so"),
    ConfigEntry("mqttconn", "bridge/mqtt/libmqttconn.so"),
    ConfigEntry("bridge", "bridge/bridge/libbridge.so")
  ]

  // Libraries in which nothing throws.
  function Library(i: nat): Factory
    requires i < 5
  {
    Factory(if i == 0 then []
            else if i == 1 then [FINAL_HAVEN]
            else if i == 2 then [FINAL_HAVEN, EXECUTOR]
            else if i == 3 then [CONN_MAN, FINAL_HAVEN]
            else [MQTT_CONN, EXECUTOR, FINAL_HAVEN],
            [Offer(i)], true, true, true)
  }

  function Offer(i: nat): Entry<string>
    requires i < 5
  {
    if i == 0 then FINAL_HAVEN else if i == 1 then EXECUTOR else if i == 2 then CONN_MAN
    else if i == 3 then MQTT_CONN else BRIDGE
  }

  const DISK := map[
    CONFIG[0].libPath := Library(0),
    CONFIG[1].libPath := Library(1),
    CONFIG[2].libPath := Library(2),
    CONFIG[3].libPath := Library(3),
    CONFIG[4].libPath := Library(4)
  ]

  lemma {:induction false} PathsDiffer(i: nat, j: nat)
    requires i < j < 5
    ensures CONFIG[i].libPath != CONFIG[j].libPath && CONFIG[i].name != CONFIG[j].name
  {
    assert CONFIG[3].libPath[7] == 'm' && CONFIG[4].libPath[7] == 'b';
  }

  lemma {:induction false} PathIs(i: nat)
    requires i < 5
    ensures PathAt(CONFIG, i) == CONFIG[i].libPath && CONFIG[i].libPath in DISK
    ensures DISK[CONFIG[i].libPath] == Library(i)
  {
    LibOfSuffix(0, i);
    assert CONFIG[0..] == CONFIG;
    PathsDiffer(0, 1);
    PathsDiffer(0, 2);
    PathsDiffer(0, 3);
    PathsDiffer(0, 4);
    PathsDiffer(1, 2);
    PathsDiffer(1, 3);
    PathsDiffer(1, 4);
    PathsDiffer(2, 3);
    PathsDiffer(2, 4);
    PathsDiffer(3, 4);
  }

  lemma {:induction false} LibOfSuffix(k: nat, i: nat)
    requires k <= i < 5
    ensures LibOf(CONFIG[k..], CONFIG[i].name) == CONFIG[i].libPath
    decreases i - k
  {
    if k < i {
      PathsDiffer(k, i);
      LibOfSuffix(k + 1, i);
      assert CONFIG[k..][1..] == CONFIG[k + 1..];
    }
  }

  lemma {:induction false} OffersOne(i: nat, dep: Entry<string>)
    requires i < 5
    ensures ProvidedBy(CONFIG, DISK, i, dep) <==> dep == Offer(i)
  {
    PathIs(i);
    assert Find([Offer(i)], dep.key) == if Offer(i).key == dep.key then Some(Offer(i).value) else None;
  }

  lemma {:induction false} PackIsFine(i: nat, d: nat)
    requires i < 5 && d < |Library(i).depends|
    ensures Consistent(Library(i).depends)
    ensures exists j :: 0 <= j < i && Library(i).depends[d] == Offer(j)
  {
    assert Offer(0) == FINAL_HAVEN && Offer(1) == EXECUTOR && Offer(2) == CONN_MAN && Offer(3) == MQTT_CONN;
  }

  lemma {:induction false} Accepted(i: nat)
    requires i < 5
    ensures AcceptedAt(CONFIG, DISK, i)
  {
    PathIs(i);
    forall j | 0 <= j < i
      ensures PathAt(CONFIG, j) != PathAt(CONFIG, i)
    {
      PathIs(j);
      PathsDiffer(j, i);
    }
    forall d | 0 <= d < |Library(i).depends|
      ensures Consistent(Library(i).depends) && ProvidedBefore(CONFIG, DISK, i, Library(i).depends[d])
    {
      PackIsFine(i, d);
      var j :| 0 <= j < i && Library(i).depends[d] == Offer(j);
      OffersOne(j, Offer(j));
    }
  }

  // The shipped configuration is accepted and everything in it is started.
  lemma {:induction false} Starts()
    ensures StartsUp(CONFIG, DISK)
  {
    forall i | 0 <= i < 5
      ensures AcceptedAt(CONFIG, DISK, i)
    {
      Accepted(i);
    }
    forall i | 0 <= i < 5
      ensures PathAt(CONFIG, i) in DISK && DISK[PathAt(CONFIG, i)].inits && DISK[PathAt(CONFIG, i)].starts
    {
      PathIs(i);
    }
    StartsUpExact(CONFIG, DISK);
  }

  // And it listens to its error sink.
  lemma {:induction false} ListensToSink()
    ensures Serves(CONFIG, DISK)
  {
    Starts();
    StartsUpExact(CONFIG, DISK);
    PathIs(0);
    assert Find([Offer(0)], "FinalHaven") == Some("System::IFinalHaven");
    assert IsSink(CONFIG, DISK, 0);
  }

  // The bridge depends on the MQTT connection and the executor.
  lemma {:induction false} BridgeDepends()
    ensures DependsOn(CONFIG, DISK, 4, 1) && DependsOn(CONFIG, DISK, 4, 3)
  {
    Starts();
    PathIs(4);
    forall m | 0 <= m < 4
      ensures ProvidedBy(CONFIG, DISK, m, Library(4).depends[1]) ==> m == 1
      ensures ProvidedBy(CONFIG, DISK, m, Library(4).depends[0]) ==> m == 3
    {
      OffersOne(m, Library(4).depends[1]);
      OffersOne(m, Library(4).depends[0]);
    }
    SoleProviderBound(CONFIG, DISK, 4, 1, 1);
    SoleProviderBound(CONFIG, DISK, 4, 3, 0);
  }

  // It is started before both.
  lemma {:induction false} BridgeStartsFirst()
    ensures StartsUp(CONFIG, DISK) && !DependenciesStartFirst(CONFIG, DISK)
    ensures var calls := CallsOf(CONFIG, DISK);
            && DependsOn(CONFIG, DISK, 4, 1) && Precedes(calls, Start("bridge"), Start("executor"))
            && !Precedes(calls, Start("executor"), Start("bridge"))
            && DependsOn(CONFIG, DISK, 4, 3) && Precedes(calls, Start("bridge"), Start("mqttconn"))
            && !Precedes(calls, Start("mqttconn"), Start("bridge"))
  {
    Starts();
    BridgeDepends();
    StartedInNameOrder(CONFIG, DISK, 4, 1);
    StartedInNameOrder(CONFIG, DISK, 4, 3);
    LessTotal("bridge", "executor");
    LessTotal("bridge", "mqttconn");
    assert Less("bridge", "executor") && Less("bridge", "mqttconn");
  }
}
