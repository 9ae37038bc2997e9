// The device table of the bridge, taken as a value.
module DeviceTable {
  import opened Common
  import Retry

  datatype MapItem = MapItem(value: Uint16, text: string)

  datatype Channel = Channel(
    number: Uint32,
    name: string,
    mqttTopic: string,
    mqttSubscribe: bool,
    valueMapping: seq<MapItem>)

  datatype Device = Device(
    devName: string,
    inputTopic: string,
    outputTopic: string,
    statusTopic: string,
    nodeTimeoutInSec: Uint32,
    nodeConnectionAttempt: Uint32,
    inputMapping: seq<Channel>,
    outputMapping: seq<Channel>)

  // getGwtItem: the first row with the name.
  function GetGwtItem(table: seq<Device>, name: string): Option<Device> {
    if table == [] then None
    else if table[0].devName == name then Some(table[0])
    else GetGwtItem(table[1..], name)
  }

  ghost predicate FirstNamed(table: seq<Device>, name: string, i: nat) {
    && i < |table| && table[i].devName == name
    && forall j :: 0 <= j < i ==> table[j].devName != name
  }

  lemma {:induction false} LookupFirst(table: seq<Device>, name: string, i: nat)
    ensures FirstNamed(table, name, i) ==> GetGwtItem(table, name) == Some(table[i])
    ensures GetGwtItem(table, name) == None <==> forall j :: 0 <= j < |table| ==> table[j].devName != name
  {
    if table != [] {
      LookupFirst(table[1..], name, if i > 0 then i - 1 else 0);
      assert forall j :: 0 < j < |table| ==> table[j] == table[1..][j - 1];
      assert i > 0 && FirstNamed(table, name, i) ==> FirstNamed(table[1..], name, i - 1);
    }
  }

  ghost predicate DistinctNames(table: seq<Device>) {
    forall i, j :: 0 <= i < j < |table| ==> table[i].devName != table[j].devName
  }

  // With distinct names the lookup by name returns the row itself.
  lemma {:induction false} LookupAgrees(table: seq<Device>, i: nat)
    requires DistinctNames(table) && i < |table|
    ensures GetGwtItem(table, table[i].devName) == Some(table[i])
  {
    LookupFirst(table, table[i].devName, i);
  }

  // The watchdog policy of a device; the timeout is configured in seconds.
  function PolicyOf(dev: Device): Retry.Policy {
    Retry.Policy(dev.nodeConnectionAttempt, dev.nodeTimeoutInSec * 1000)
  }

  function Rearmed(dev: Device, now: int): Retry.Block {
    Retry.Block(0, now + dev.nodeTimeoutInSec * 1000)
  }

  // ---------------------------------------------------------------- mappings

  function FirstByValue(m: seq<MapItem>, value: int): Option<string> {
    if m == [] then None
    else if m[0].value == value then Some(m[0].text)
    else FirstByValue(m[1..], value)
  }

  function FirstByText(m: seq<MapItem>, text: string): Option<Uint16> {
    if m == [] then None
    else if m[0].text == text then Some(m[0].value)
    else FirstByText(m[1..], text)
  }

  // j is the first place with the value, or the length of the mapping if there
  // is none.
  ghost predicate FirstValueAt(m: seq<MapItem>, value: int, j: nat) {
    && j <= |m| && (forall i :: 0 <= i < j ==> m[i].value != value)
    && (j < |m| ==> m[j].value == value)
  }

  ghost predicate FirstTextAt(m: seq<MapItem>, text: string, j: nat) {
    && j <= |m| && (forall i :: 0 <= i < j ==> m[i].text != text)
    && (j < |m| ==> m[j].text == text)
  }

  lemma {:induction false} FirstByValueExact(m: seq<MapItem>, value: int, j: nat)
    requires FirstValueAt(m, value, j)
    ensures FirstByValue(m, value) == if j < |m| then Some(m[j].text) else None
  {
    if j > 0 {
      FirstByValueExact(m[1..], value, j - 1);
    }
  }

  lemma {:induction false} FirstByTextExact(m: seq<MapItem>, text: string, j: nat)
    requires FirstTextAt(m, text, j)
    ensures FirstByText(m, text) == if j < |m| then Some(m[j].value) else None
  {
    if j > 0 {
      FirstByTextExact(m[1..], text, j - 1);
    }
  }

  ghost predicate DistinctValues(m: seq<MapItem>) {
    forall i, j :: 0 <= i < j < |m| ==> m[i].value != m[j].value
  }

  ghost predicate DistinctTexts(m: seq<MapItem>) {
    forall i, j :: 0 <= i < j < |m| ==> m[i].text != m[j].text
  }

  lemma {:induction false} ValueFound(m: seq<MapItem>, i: nat)
    requires DistinctValues(m) && i < |m|
    ensures FirstByValue(m, m[i].value) == Some(m[i].text)
  {
    if i > 0 {
      ValueFound(m[1..], i - 1);
    }
  }

  lemma {:induction false} TextFound(m: seq<MapItem>, i: nat)
    requires DistinctTexts(m) && i < |m|
    ensures FirstByText(m, m[i].text) == Some(m[i].value)
  {
    if i > 0 {
      TextFound(m[1..], i - 1);
    }
  }

  lemma {:induction false} FoundText(m: seq<MapItem>, text: string) returns (i: nat)
    requires FirstByText(m, text).Some?
    ensures i < |m| && m[i].text == text && FirstByText(m, text) == Some(m[i].value)
  {
    if m[0].text == text {
      i := 0;
    } else {
      i := FoundText(m[1..], text);
      i := i + 1;
    }
  }

  // A text that is sent as a value comes back as the same text; a value that
  // is shown as a text goes out as the same value.
  lemma {:induction false} MappingRoundTrip(m: seq<MapItem>, text: string, i: nat)
    requires DistinctValues(m)
    ensures FirstByText(m, text).Some? ==> FirstByValue(m, FirstByText(m, text).value) == Some(text)
    ensures DistinctTexts(m) && i < |m| ==>
              && FirstByValue(m, m[i].value).Some?
              && FirstByText(m, FirstByValue(m, m[i].value).value) == Some(m[i].value)
  {
    if FirstByText(m, text).Some? {
      var k := FoundText(m, text);
      ValueFound(m, k);
    }
    if DistinctTexts(m) && i < |m| {
      ValueFound(m, i);
      TextFound(m, i);
    }
  }
}
