// The executor object. Its map of cyclic items is a field; the io_service it
// drives (clock, queued completions, queued function objects) is foreign, and
// only its observable state is kept here.
module Executor {
  import opened Common
  import opened CyclicTimers

  lemma {:induction false} AbortedSplit(items: map<Id, CycleItem>, id: Id)
    requires id in items
    ensures AbortedAll(items) == AbortedAll(items[id := items[id].(armed := false)]) + Aborted(items[id], id)
  {
    var disarmed := items[id := items[id].(armed := false)];
    var before := set k | k in items && items[k].armed :: Completion(k, true);
    var after := set k | k in disarmed && disarmed[k].armed :: Completion(k, true);
    assert after == before - {Completion(id, true)};
    assert Completion(id, true) in before <==> items[id].armed;
  }

  lemma {:induction false} NoneArmed(items: map<Id, CycleItem>)
    requires forall id :: id in items ==> !items[id].armed
    ensures AbortedAll(items) == multiset{}
  {
    assert (set id | id in items && items[id].armed :: Completion(id, true)) == {};
  }

  // All timers cancelled.
  function Disarmed(s: State): State {
    s.(items := map id | id in s.items :: s.items[id].(armed := false),
       completions := s.completions + AbortedAll(s.items))
  }

  lemma {:induction false} Shuffle<T>(a: multiset<T>, b: multiset<T>, c: multiset<T>)
    ensures (a + b) + c == a + (c + b)
  {
  }

  // Cancelling one timer before all of them changes nothing.
  lemma {:induction false} CancelThenDisarm(s: State, id: Id)
    ensures Disarmed(Cancelled(s, id)) == Disarmed(s)
  {
    if id in s.items {
      AbortedSplit(s.items, id);
      Shuffle(s.completions, Aborted(s.items[id], id), AbortedAll(Cancelled(s, id).items));
      assert Disarmed(Cancelled(s, id)).items == Disarmed(s).items;
    }
  }

  lemma {:induction false} DisarmedAlready(s: State)
    requires forall id :: id in s.items ==> !s.items[id].armed
    ensures Disarmed(s) == s
  {
    NoneArmed(s.items);
    assert Disarmed(s).items == s.items;
  }

  // Cancelling all timers before dropping the items changes nothing.
  lemma {:induction false} DisarmThenClear(s: State)
    ensures Cleared(Disarmed(s)) == Cleared(s)
  {
    NoneArmed(Disarmed(s).items);
  }

  class CExecutor {
    var cycleItems: map<Id, CycleItem>
    var now: int
    var completions: multiset<Completion>
    var jobs: multiset<Job>
    var stopped: bool

    ghost function Snapshot(): State
      reads this
    {
      State(now, cycleItems, completions, jobs, stopped)
    }

    constructor (start: int)
      ensures Snapshot() == Initial(start)
    {
      cycleItems, now, completions, jobs, stopped := map[], start, multiset{}, multiset{}, false;
    }

    method Execute(task: Task)
      modifies this
      ensures Snapshot() == Next(old(Snapshot()), Post(task))
      ensures jobs == old(jobs) + multiset{Job(None, task)}
      ensures cycleItems == old(cycleItems) && completions == old(completions)
    {
      jobs := jobs + multiset{Job(None, task)};
    }

    // `drawn` is what rand() returned. The new timer starts a wait for that id
    // whether or not it got into the map; if not, it dies on return.
    method ExecuteCyclic(task: Task, time: int, drawn: Id) returns (id: Id)
      modifies this
      ensures id == drawn
      ensures Snapshot() == Registered(old(Snapshot()), drawn, time, task)
      ensures drawn !in old(cycleItems) ==>
                && cycleItems == old(cycleItems)[drawn := CycleItem(now + time, true, time, task)]
                && completions == old(completions)
      ensures drawn in old(cycleItems) ==>
                && cycleItems == old(cycleItems)
                && completions == old(completions) + multiset{Completion(drawn, true)}
      ensures now == old(now) && jobs == old(jobs) && stopped == old(stopped)
    {
      var timer := CycleItem(now + time, true, time, task);
      if drawn !in cycleItems {
        cycleItems := cycleItems[drawn := timer];
      } else {
        completions := completions + multiset{Completion(drawn, true)};
      }
      id := drawn;
    }

    // The timeout handler, run by a worker with a completion of the queue.
    method OnTimeout(c: Completion)
      requires !stopped && c in completions
      modifies this
      ensures Snapshot() == Handled(old(Snapshot()), c)
      ensures c.id in old(cycleItems) ==>
                var item := old(cycleItems)[c.id];
                && cycleItems ==
                   old(cycleItems)[c.id := CycleItem(item.expiry + item.period, true, item.period, item.task)]
                && jobs == old(jobs) + multiset{Job(Some(c.id), item.task)}
      ensures c.id !in old(cycleItems) ==> cycleItems == old(cycleItems) && jobs == old(jobs)
      ensures now == old(now) && stopped == old(stopped)
    {
      var left := completions - multiset{c};
      if c.id in cycleItems {
        var item := cycleItems[c.id];
        jobs := jobs + multiset{Job(Some(c.id), item.task)};
        // Moving the expiry answers a wait that is still armed.
        completions := left + Aborted(item, c.id);
        cycleItems := cycleItems[c.id := item.(expiry := item.expiry + item.period, armed := true)];
      } else {
        completions := left;
      }
    }

    method StopCyclic(id: Id)
      modifies this
      ensures Snapshot() == Stopped(old(Snapshot()), id)
      ensures id !in cycleItems
      ensures forall k :: k != id ==> (k in cycleItems <==> k in old(cycleItems))
      ensures forall k :: k != id && k in cycleItems ==> cycleItems[k] == old(cycleItems)[k]
      ensures forall c: Completion :: c.id != id ==> completions[c] == old(completions)[c]
      ensures now == old(now) && jobs == old(jobs) && stopped == old(stopped)
    {
      if id in cycleItems {
        completions := completions + Aborted(cycleItems[id], id);
        cycleItems := cycleItems - {id};
      }
    }

    // cancel() on the timer of one item.
    method CancelTimer(id: Id)
      requires id in cycleItems
      modifies this
      ensures Snapshot() == Cancelled(old(Snapshot()), id)
    {
      completions := completions + Aborted(cycleItems[id], id);
      cycleItems := cycleItems[id := cycleItems[id].(armed := false)];
    }

    // The first loop of stopExecution: every timer is disarmed, every armed wait
    // is answered as aborted, and nothing else changes.
    method CancelTimers()
      modifies this
      ensures Snapshot() == Disarmed(old(Snapshot()))
      ensures cycleItems.Keys == old(cycleItems).Keys
      ensures Cleared(Snapshot()) == Cleared(old(Snapshot()))
    {
      var todo := cycleItems.Keys;
      while todo != {}
        invariant todo <= cycleItems.Keys == old(cycleItems).Keys
        invariant forall id :: id in cycleItems && id !in todo ==> !cycleItems[id].armed
        invariant Disarmed(Snapshot()) == Disarmed(old(Snapshot()))
        decreases |todo|
      {
        var id :| id in todo;
        CancelThenDisarm(Snapshot(), id);
        CancelTimer(id);
        todo := todo - {id};
      }
      DisarmedAlready(Snapshot());
      DisarmThenClear(old(Snapshot()));
    }

    // Cancel every timer, drop the items, stop the io_service: every armed wait
    // ends up as one aborted completion, and nothing else changes.
    method StopExecution()
      modifies this
      ensures Snapshot() == Next(Cleared(old(Snapshot())), StopService)
      ensures cycleItems == map[] && stopped && now == old(now) && jobs == old(jobs)
      ensures completions == old(completions) + AbortedAll(old(cycleItems))
    {
      CancelTimers();
      NoneArmed(cycleItems);
      assert Cleared(Snapshot()).completions == completions;
      cycleItems := map[];
      stopped := true;
    }
  }
}
