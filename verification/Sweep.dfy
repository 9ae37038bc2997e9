// A loop over all entries of an unordered map: every turn updates one entry
// and appends to a log what it did for that entry.
module Sweep {
  import opened Common

  // The new value of an entry, what its turn appends, and whom an item of the
  // log is about.
  datatype Rule<!K, !V, !P> = Rule(step: (K, V) -> V, emit: (K, V) -> seq<P>, about: P -> Option<K>)

  // The items of the log about k, in order.
  function Of<K(==), P>(about: P -> Option<K>, log: seq<P>, k: K): seq<P> {
    if log == [] then []
    else
      var last := log[|log| - 1];
      Of(about, log[..|log| - 1], k) + if about(last) == Some(k) then [last] else []
  }

  // The turn of k speaks only of k.
  ghost predicate Proper<K, V, P>(r: Rule<K, V, P>, k: K, v: V) {
    forall i :: 0 <= i < |r.emit(k, v)| ==> r.about(r.emit(k, v)[i]) == Some(k)
  }

  ghost predicate Turned<K, V, P>(r: Rule<K, V, P>, before: map<K, V>, todo: set<K>, items: map<K, V>,
                                  added: seq<P>, k: K)
    requires k in before && k in items
  {
    if k in todo then items[k] == before[k] && Of(r.about, added, k) == []
    else items[k] == r.step(k, before[k]) && Of(r.about, added, k) == r.emit(k, before[k])
  }

  ghost predicate Known<K, V, P>(r: Rule<K, V, P>, before: map<K, V>, added: seq<P>) {
    forall i :: 0 <= i < |added| ==> r.about(added[i]).Some? && r.about(added[i]).value in before
  }

  // The loop with the entries of `todo` still to come.
  ghost predicate Swept<K, V, P>(r: Rule<K, V, P>, before: map<K, V>, todo: set<K>, items: map<K, V>, added: seq<P>) {
    && todo <= before.Keys && items.Keys == before.Keys
    && (forall k :: k in before ==> Turned(r, before, todo, items, added, k))
    && Known(r, before, added)
  }

  lemma {:induction false} SweepStart<K, V, P>(r: Rule<K, V, P>, before: map<K, V>)
    ensures Swept(r, before, before.Keys, before, [])
  {
  }

  lemma {:induction false} OfConcat<K, P>(about: P -> Option<K>, log: seq<P>, more: seq<P>, k: K)
    ensures Of(about, log + more, k) == Of(about, log, k) + Of(about, more, k)
  {
    if more == [] {
      assert log + more == log;
    } else {
      OfConcat(about, log, more[..|more| - 1], k);
      assert (log + more)[..|log + more| - 1] == log + more[..|more| - 1];
    }
  }

  lemma {:induction false} OfOne<K, P>(about: P -> Option<K>, log: seq<P>, key: K, k: K)
    requires forall i :: 0 <= i < |log| ==> about(log[i]) == Some(key)
    ensures Of(about, log, k) == if k == key then log else []
  {
    if log != [] {
      OfOne(about, log[..|log| - 1], key, k);
    }
  }

  lemma {:induction false} OfMember<K, P>(about: P -> Option<K>, log: seq<P>, i: nat, k: K)
    requires i < |log| && about(log[i]) == Some(k)
    ensures log[i] in Of(about, log, k)
  {
    if i < |log| - 1 {
      OfMember(about, log[..|log| - 1], i, k);
    }
  }

  lemma {:induction false} TurnedNext<K, V, P>(r: Rule<K, V, P>, before: map<K, V>, todo: set<K>, items: map<K, V>,
                                               added: seq<P>, k: K, other: K)
    requires k in todo && k in before && k in items && other in before && other in items
    requires Proper(r, k, items[k])
    requires Turned(r, before, todo, items, added, k) && Turned(r, before, todo, items, added, other)
    ensures Turned(r, before, todo - {k}, items[k := r.step(k, items[k])], added + r.emit(k, items[k]), other)
  {
    var more := r.emit(k, items[k]);
    OfConcat(r.about, added, more, other);
    OfOne(r.about, more, k, other);
  }

  // One turn of the loop.
  lemma {:induction false} SweepTurn<K, V, P>(r: Rule<K, V, P>, before: map<K, V>, todo: set<K>, items: map<K, V>,
                                              added: seq<P>, k: K)
    requires Swept(r, before, todo, items, added) && k in todo && Proper(r, k, items[k])
    ensures Swept(r, before, todo - {k}, items[k := r.step(k, items[k])], added + r.emit(k, items[k]))
  {
    assert Turned(r, before, todo, items, added, k);
    forall other | other in before
      ensures Turned(r, before, todo - {k}, items[k := r.step(k, items[k])], added + r.emit(k, items[k]), other)
    {
      assert Turned(r, before, todo, items, added, other);
      TurnedNext(r, before, todo, items, added, k, other);
    }
  }

  // The finished loop: every entry was updated exactly once, the log holds
  // exactly what each entry has to say, and nothing else.
  lemma {:induction false} SweepDone<K, V, P>(r: Rule<K, V, P>, before: map<K, V>, items: map<K, V>, added: seq<P>)
    requires Swept(r, before, {}, items, added)
    ensures items == map k | k in before :: r.step(k, before[k])
    ensures forall k :: k in before ==> Of(r.about, added, k) == r.emit(k, before[k])
  {
    forall k | k in before
      ensures items[k] == r.step(k, before[k]) && Of(r.about, added, k) == r.emit(k, before[k])
    {
      assert Turned(r, before, {}, items, added, k);
    }
  }
}
