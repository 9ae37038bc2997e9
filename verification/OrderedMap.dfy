// std::map with string keys: entries in strictly increasing key order; insert
// leaves an existing key alone.
module OrderedMap {
  import opened Common

  datatype Entry<V> = Entry(key: string, value: V)

  // Lexicographic order of strings.
  predicate Less(a: string, b: string) {
    b != "" && (a == "" || a[0] < b[0] || (a[0] == b[0] && Less(a[1..], b[1..])))
  }

  lemma {:induction false} LessTotal(a: string, b: string)
    ensures a == b || Less(a, b) || Less(b, a)
    ensures !(Less(a, b) && Less(b, a)) && !Less(a, a)
  {
    if a != "" && b != "" && a[0] == b[0] {
      LessTotal(a[1..], b[1..]);
      assert a == [a[0]] + a[1..] && b == [b[0]] + b[1..];
    }
    if a != "" {
      LessIrreflexive(a);
    }
  }

  // a comes before b in the dictionary: at the first place where they differ
  // a has the smaller character, or has ended.
  lemma {:induction false} LessExact(a: string, b: string, k: nat)
    requires k <= |a| && k <= |b| && a[..k] == b[..k]
    requires k < |a| && k < |b| ==> a[k] != b[k]
    ensures k == |a| == |b| ==> !Less(a, b)
    ensures k == |a| < |b| ==> Less(a, b)
    ensures k == |b| < |a| ==> !Less(a, b)
    ensures k < |a| && k < |b| ==> (Less(a, b) <==> a[k] < b[k])
  {
    if k > 0 {
      assert a[0] == a[..k][0] == b[..k][0] == b[0];
      assert a[1..][..k - 1] == a[..k][1..] == b[..k][1..] == b[1..][..k - 1];
      LessExact(a[1..], b[1..], k - 1);
    }
  }

  lemma {:induction false} LessIrreflexive(a: string)
    ensures !Less(a, a)
  {
    if a != "" {
      LessIrreflexive(a[1..]);
    }
  }

  lemma {:induction false} LessTransitive(a: string, b: string, c: string)
    requires Less(a, b) && Less(b, c)
    ensures Less(a, c)
  {
    if a != "" && a[0] == b[0] && b[0] == c[0] {
      LessTransitive(a[1..], b[1..], c[1..]);
    }
  }

  ghost predicate Sorted<V>(m: seq<Entry<V>>) {
    forall i, j :: 0 <= i < j < |m| ==> Less(m[i].key, m[j].key)
  }

  function Find<V>(m: seq<Entry<V>>, key: string): Option<V> {
    if m == [] then None else if m[0].key == key then Some(m[0].value) else Find(m[1..], key)
  }

  function Insert<V>(m: seq<Entry<V>>, key: string, value: V): seq<Entry<V>> {
    if m == [] || Less(key, m[0].key) then [Entry(key, value)] + m
    else if m[0].key == key then m
    else [m[0]] + Insert(m[1..], key, value)
  }

  lemma {:induction false} FindEntry<V>(m: seq<Entry<V>>, key: string)
    ensures Find(m, key) == None <==> forall i :: 0 <= i < |m| ==> m[i].key != key
    ensures Find(m, key).Some? ==> Entry(key, Find(m, key).value) in m
  {
    if m != [] {
      FindEntry(m[1..], key);
      assert m == [m[0]] + m[1..];
    }
  }

  lemma {:induction false} FindAt<V>(m: seq<Entry<V>>, i: nat)
    requires Sorted(m) && i < |m|
    ensures Find(m, m[i].key) == Some(m[i].value)
  {
    if i > 0 {
      LessIrreflexive(m[i].key);
      FindAt(m[1..], i - 1);
    }
  }

  lemma {:induction false} FindBelow<V>(m: seq<Entry<V>>, key: string)
    requires Sorted(m) && (m != [] ==> Less(key, m[0].key))
    ensures Find(m, key) == None
  {
    if m != [] {
      LessIrreflexive(key);
      if |m| > 1 {
        LessTransitive(key, m[0].key, m[1].key);
      }
      FindBelow(m[1..], key);
    }
  }

  // Insert keeps the order, adds the key if it is new and changes nothing else.
  lemma {:induction false} InsertFind<V>(m: seq<Entry<V>>, key: string, value: V, q: string)
    requires Sorted(m)
    ensures Sorted(Insert(m, key, value))
    ensures Find(Insert(m, key, value), q) == if q == key && Find(m, key) == None then Some(value) else Find(m, q)
    ensures forall e :: e in Insert(m, key, value) ==> e in m || e == Entry(key, value)
    ensures m != [] ==> Insert(m, key, value)[0].key == m[0].key || Insert(m, key, value)[0].key == key
    ensures m == [] ==> Insert(m, key, value) == [Entry(key, value)]
  {
    var r := Insert(m, key, value);
    if m == [] {
    } else if Less(key, m[0].key) {
      FindBelow(m, key);
      assert r[1..] == m;
      forall i, j | 0 <= i < j < |r|
        ensures Less(r[i].key, r[j].key)
      {
        if i == 0 && j > 1 {
          LessTransitive(key, m[0].key, m[j - 1].key);
        }
      }
    } else if m[0].key != key {
      var rest := m[1..];
      InsertFind(rest, key, value, q);
      assert r[1..] == Insert(rest, key, value);
      LessTotal(key, m[0].key);
      forall i, j | 0 <= i < j < |r|
        ensures Less(r[i].key, r[j].key)
      {
        if i == 0 {
          assert r[j] in Insert(rest, key, value);
          assert r[j] in rest || r[j] == Entry(key, value);
        } else {
          assert r[i] == r[1..][i - 1] && r[j] == r[1..][j - 1];
        }
      }
    }
  }

  lemma {:induction false} InsertTwice<V>(m: seq<Entry<V>>, key: string, value: V)
    ensures Insert(Insert(m, key, value), key, value) == Insert(m, key, value)
  {
    LessIrreflexive(key);
    if m != [] && !Less(key, m[0].key) && m[0].key != key {
      InsertTwice(m[1..], key, value);
    }
  }
}
