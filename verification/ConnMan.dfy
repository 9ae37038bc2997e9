// The connection manager: one retry automaton per subscribed client.
module ConnMan {
  import opened Common
  import Retry
  import Sweep

  datatype ConnectionStatus = DISCONNECTED | CONNECTING | CONNECTED

  datatype ClientInfo = ClientInfo(connectionAttempt: Uint32, connectionTimeout: int, connectionCycleTimeout: int)

  // What the handler learns about a client: its weak pointer expired, or its
  // state and its settings.
  datatype ClientView = Gone | Live(status: ConnectionStatus, info: ClientInfo)

  // Blocks by the name under which a component subscribed.
  type Items = map<string, Retry.Block>

  function PolicyOf(info: ClientInfo): Retry.Policy {
    Retry.Policy(info.connectionAttempt, info.connectionTimeout + info.connectionCycleTimeout)
  }

  function ToEvent(view: ClientView, now: int): Retry.Event {
    match view
    case Live(DISCONNECTED, _) => Retry.Check(now)
    case Live(CONNECTED, _) => Retry.Contact(None)
    case _ => Retry.Pass
  }

  function NextBlock(b: Retry.Block, view: ClientView, now: int): Retry.Block {
    if view.Gone? then b else Retry.Step(PolicyOf(view.info), b, ToEvent(view, now))
  }

  function ActionOn(b: Retry.Block, view: ClientView, now: int): Retry.Action {
    if view.Gone? then Retry.Idle else Retry.Act(PolicyOf(view.info), b, ToEvent(view, now))
  }

  // ---------------------------------------------------------------- runs

  datatype Event =
    | Subscribe(name: string)
    | Unsubscribe(name: string)
    | Handle(now: int, views: map<string, ClientView>)

  function ViewOf(views: map<string, ClientView>, name: string): ClientView {
    if name in views then views[name] else Gone
  }

  function Next(items: Items, e: Event): Items {
    match e
    case Subscribe(name) => if name in items then items else items[name := Retry.Block(0, 0)]
    case Unsubscribe(name) => items - {name}
    case Handle(now, views) => map n | n in items :: NextBlock(items[n], ViewOf(views, n), now)
  }

  function After(items: Items, es: seq<Event>): Items {
    if es == [] then items else Next(After(items, es[..|es| - 1]), es[|es| - 1])
  }

  // What event e makes the manager do for client n.
  function ActionFor(items: Items, e: Event, n: string): Retry.Action {
    if e.Handle? && n in items then ActionOn(items[n], ViewOf(e.views, n), e.now) else Retry.Idle
  }

  // One life of the subscription of n, during which the client keeps its settings.
  ghost predicate OneLife(es: seq<Event>, n: string, info: ClientInfo) {
    forall i :: 0 <= i < |es| ==> Within(es[i], n, info)
  }

  predicate Within(e: Event, n: string, info: ClientInfo) {
    && e != Unsubscribe(n)
    && (e.Handle? && ViewOf(e.views, n).Live? ==> ViewOf(e.views, n).info == info)
  }

  function Seen(e: Event, n: string): Retry.Event {
    if e.Handle? then ToEvent(ViewOf(e.views, n), e.now) else Retry.Pass
  }

  // The run as client n's automaton sees it, event by event.
  function SeenBy(es: seq<Event>, n: string): seq<Retry.Event> {
    seq(|es|, i requires 0 <= i < |es| => Seen(es[i], n))
  }

  // Refinement: over a life of n, whatever other clients do, its block is that
  // of its own automaton and every call made for it is the automaton's action.
  lemma {:induction false} ClientRefinement(items: Items, es: seq<Event>, n: string, info: ClientInfo)
    requires n in items && OneLife(es, n, info)
    ensures n in After(items, es)
    ensures After(items, es)[n] == Retry.After(PolicyOf(info), items[n], SeenBy(es, n))
  {
    if es != [] {
      var init := es[..|es| - 1];
      ClientRefinement(items, init, n, info);
      assert SeenBy(es, n)[..|es| - 1] == SeenBy(init, n);
      assert Within(es[|es| - 1], n, info);
    }
  }

  lemma {:induction false} ActionRefinement(items: Items, es: seq<Event>, n: string, info: ClientInfo, i: nat)
    requires n in items && OneLife(es, n, info) && i < |es|
    ensures ActionFor(After(items, es[..i]), es[i], n) == Retry.ActionAt(PolicyOf(info), items[n], SeenBy(es, n), i)
  {
    ClientRefinement(items, es[..i], n, info);
    assert SeenBy(es, n)[..i] == SeenBy(es[..i], n);
    assert Within(es[i], n, info);
  }

  lemma {:induction false} SeenKeepsDeadline(es: seq<Event>, n: string)
    ensures Retry.KeepsDeadline(SeenBy(es, n))
  {
  }

  // Two connect() calls of one life are more than the two timeouts apart, for
  // any clock readings, statuses and other clients in between.
  lemma {:induction false} ReconnectSpacing(items: Items, es: seq<Event>, n: string, info: ClientInfo, i: nat, j: nat)
    requires n in items && OneLife(es, n, info) && i < j < |es|
    requires info.connectionTimeout + info.connectionCycleTimeout >= 0
    requires ActionFor(After(items, es[..i]), es[i], n) == Retry.Attempt
    requires ActionFor(After(items, es[..j]), es[j], n) == Retry.Attempt
    ensures es[j].now > es[i].now + info.connectionTimeout + info.connectionCycleTimeout
  {
    ActionRefinement(items, es, n, info, i);
    ActionRefinement(items, es, n, info, j);
    SeenKeepsDeadline(es, n);
    Retry.AttemptsSpaced(PolicyOf(info), items[n], SeenBy(es, n), i, j);
  }

  function ActionsOf(items: Items, es: seq<Event>, n: string, a: Retry.Action): nat {
    if es == [] then 0
    else
      var init := es[..|es| - 1];
      ActionsOf(items, init, n, a) + if ActionFor(After(items, init), es[|es| - 1], n) == a then 1 else 0
  }

  function ConnectsWithin(items: Items, es: seq<Event>, n: string, lo: int, hi: int): nat {
    if es == [] then 0
    else
      var init, e := es[..|es| - 1], es[|es| - 1];
      ConnectsWithin(items, init, n, lo, hi) +
      if ActionFor(After(items, init), e, n) == Retry.Attempt && lo <= e.now <= hi then 1 else 0
  }

  lemma {:induction false} CountRefinement(items: Items, es: seq<Event>, n: string, info: ClientInfo,
                                           a: Retry.Action, lo: int, hi: int)
    requires n in items && OneLife(es, n, info)
    ensures ActionsOf(items, es, n, a) == Retry.CountOf(a, PolicyOf(info), items[n], SeenBy(es, n))
    ensures ConnectsWithin(items, es, n, lo, hi) ==
            Retry.AttemptsWithin(PolicyOf(info), items[n], SeenBy(es, n), lo, hi)
  {
    if es != [] {
      var init := es[..|es| - 1];
      CountRefinement(items, init, n, info, a, lo, hi);
      ActionRefinement(items, es, n, info, |es| - 1);
      assert SeenBy(es, n)[..|es| - 1] == SeenBy(init, n);
    }
  }

  // Any window of `hi - lo` milliseconds holds at most
  // floor((hi - lo) / (sum of the timeouts + 1)) + 1 connects of a client.
  lemma {:induction false} ReconnectRate(items: Items, es: seq<Event>, n: string, info: ClientInfo, lo: int, hi: int)
    requires n in items && OneLife(es, n, info) && lo <= hi
    requires info.connectionTimeout + info.connectionCycleTimeout >= 0
    ensures ConnectsWithin(items, es, n, lo, hi) <=
            (hi - lo) / (info.connectionTimeout + info.connectionCycleTimeout + 1) + 1
  {
    CountRefinement(items, es, n, info, Retry.Attempt, lo, hi);
    SeenKeepsDeadline(es, n);
    Retry.AttemptRate(PolicyOf(info), items[n], SeenBy(es, n), lo, hi);
  }

  // CONNECTED is not observed for n.
  ghost predicate NeverConnected(es: seq<Event>, n: string) {
    forall i :: 0 <= i < |es| && es[i].Handle? && n in es[i].views && es[i].views[n].Live? ==>
      es[i].views[n].status != CONNECTED
  }

  lemma {:induction false} NoContactSeen(es: seq<Event>, n: string)
    requires NeverConnected(es, n)
    ensures Retry.NoContact(SeenBy(es, n))
  {
  }

  // Expired checks of n over the run.
  function ExpiriesOf(items: Items, es: seq<Event>, n: string, info: ClientInfo): nat
    requires n in items
  {
    Retry.Expiries(PolicyOf(info), items[n], SeenBy(es, n))
  }

  // Between two observed CONNECTED states, for any number of expired checks:
  // exactly these many connects and these many "exhausted" reports; before the
  // counter wraps that is min(expired, attempts) and at most one.
  lemma {:induction false} ReconnectBudget(items: Items, es: seq<Event>, n: string, info: ClientInfo)
    requires n in items && items[n].spent == 0 && OneLife(es, n, info) && NeverConnected(es, n)
    ensures var total, limit := ExpiriesOf(items, es, n, info), info.connectionAttempt;
            && ActionsOf(items, es, n, Retry.Attempt) == total / TWO32 * limit + Min(total % TWO32, limit)
            && ActionsOf(items, es, n, Retry.Exhausted) == total / TWO32 + (if total % TWO32 > limit then 1 else 0)
            && (total <= TWO32 ==>
                  && ActionsOf(items, es, n, Retry.Attempt) == Min(total, limit)
                  && ActionsOf(items, es, n, Retry.Exhausted) == if total > limit then 1 else 0)
  {
    var p, b, seen := PolicyOf(info), items[n], SeenBy(es, n);
    CountRefinement(items, es, n, info, Retry.Attempt, 0, 0);
    CountRefinement(items, es, n, info, Retry.Exhausted, 0, 0);
    NoContactSeen(es, n);
    Retry.BudgetClosedForm(p, b, seen);
    if Retry.Expiries(p, b, seen) <= TWO32 {
      Retry.BudgetBeforeWrap(p, b, seen);
    }
  }

  // No connect after the report, before the counter wraps.
  lemma {:induction false} NoReconnectAfterReport(items: Items, es: seq<Event>, n: string, info: ClientInfo, i: nat,
                                                  j: nat)
    requires n in items && items[n].spent == 0 && OneLife(es, n, info) && NeverConnected(es, n)
    requires ExpiriesOf(items, es, n, info) <= TWO32 && i < j < |es|
    requires ActionFor(After(items, es[..i]), es[i], n) == Retry.Exhausted
    ensures ActionFor(After(items, es[..j]), es[j], n) != Retry.Attempt
  {
    ActionRefinement(items, es, n, info, i);
    ActionRefinement(items, es, n, info, j);
    NoContactSeen(es, n);
    Retry.NoAttemptAfterReport(PolicyOf(info), items[n], SeenBy(es, n), i, j);
  }

  // ---------------------------------------------------------------- object

  datatype Call = Connect(name: string) | ReportExhausted(name: string) | ReportDoubleInsertion(name: string)

  function Client(c: Call): Option<string> {
    Some(c.name)
  }

  // The calls for client n, in order.
  function CallsFor(log: seq<Call>, n: string): seq<Call> {
    Sweep.Of(Client, log, n)
  }

  function CallsOf(a: Retry.Action, n: string): seq<Call> {
    match a
    case Attempt => [Connect(n)]
    case Exhausted => [ReportExhausted(n)]
    case _ => []
  }

  // ---------------------------------------------------------------- statuses

  ghost predicate IsDisconnected(views: map<string, ClientView>, n: string) {
    n in views && views[n].Live? && views[n].status == DISCONNECTED
  }

  // One pass, spelled out by what the handler sees of the client: a
  // disconnected one past its deadline is connected while attempts are left,
  // reported once when they are used up, and left alone after that; a connected
  // one has its attempts restored and keeps its deadline; a connecting or
  // expired one is left alone.
  lemma {:induction false} PassByStatus(items: Items, now: int, views: map<string, ClientView>, n: string)
    requires n in items
    ensures var b, t := items[n], Next(items, Handle(now, views))[n];
            var calls := CallsOf(ActionFor(items, Handle(now, views), n), n);
            if IsDisconnected(views, n) && now > b.deadline then
              var info := views[n].info;
              if b.spent < info.connectionAttempt then
                t == Retry.Block(b.spent + 1, now + info.connectionTimeout + info.connectionCycleTimeout)
                && calls == [Connect(n)]
              else
                t == Retry.Block((b.spent + 1) % TWO32, b.deadline)
                && calls == if b.spent == info.connectionAttempt then [ReportExhausted(n)] else []
            else if n in views && views[n].Live? && views[n].status == CONNECTED then
              t == Retry.Block(0, b.deadline) && calls == []
            else t == b && calls == []
  {
  }

  // Action and call are the same thing.
  lemma {:induction false} ActionByStatus(items: Items, now: int, views: map<string, ClientView>, n: string)
    requires n in items
    ensures ActionFor(items, Handle(now, views), n) == Retry.Attempt <==>
            IsDisconnected(views, n) && now > items[n].deadline
            && items[n].spent < views[n].info.connectionAttempt
    ensures ActionFor(items, Handle(now, views), n) == Retry.Exhausted <==>
            IsDisconnected(views, n) && now > items[n].deadline
            && items[n].spent == views[n].info.connectionAttempt
  {
  }

  // Every pass of the run sees the client disconnected, with these settings.
  ghost predicate StaysDisconnected(es: seq<Event>, n: string, info: ClientInfo) {
    forall i :: 0 <= i < |es| ==>
      && es[i] != Unsubscribe(n)
      && (es[i].Handle? ==> n in es[i].views && es[i].views[n] == Live(DISCONNECTED, info))
  }

  // No pass of the run comes after the deadline.
  ghost predicate NoneDue(es: seq<Event>, deadline: int) {
    forall i :: 0 <= i < |es| && es[i].Handle? ==> es[i].now <= deadline
  }

  lemma {:induction false} WaitsUntilDue(items: Items, es: seq<Event>, n: string, info: ClientInfo)
    requires n in items && StaysDisconnected(es, n, info) && NoneDue(es, items[n].deadline)
    ensures n in After(items, es) && After(items, es)[n] == items[n]
  {
    if es != [] {
      var init, e := es[..|es| - 1], es[|es| - 1];
      WaitsUntilDue(items, init, n, info);
      if e.Handle? {
        PassByStatus(After(items, init), e.now, e.views, n);
      }
    }
  }

  // A client with attempts left that stays disconnected is connected on the
  // first pass after its deadline, and not before; the next deadline is then
  // the two timeouts away.
  lemma {:induction false} ConnectsWhenDue(items: Items, es: seq<Event>, n: string, info: ClientInfo, i: nat)
    requires n in items && items[n].spent < info.connectionAttempt
    requires StaysDisconnected(es, n, info) && i < |es|
    requires es[i].Handle? && es[i].now > items[n].deadline && NoneDue(es[..i], items[n].deadline)
    ensures CallsOf(ActionFor(After(items, es[..i]), es[i], n), n) == [Connect(n)]
    ensures forall j :: 0 <= j < i ==> CallsOf(ActionFor(After(items, es[..j]), es[j], n), n) == []
    ensures n in After(items, es[..i + 1])
    ensures After(items, es[..i + 1])[n] ==
            Retry.Block(items[n].spent + 1, es[i].now + info.connectionTimeout + info.connectionCycleTimeout)
  {
    forall j | 0 <= j <= i
      ensures n in After(items, es[..j]) && After(items, es[..j])[n] == items[n]
    {
      WaitsUntilDue(items, es[..j], n, info);
    }
    forall j | 0 <= j < i
      ensures CallsOf(ActionFor(After(items, es[..j]), es[j], n), n) == []
    {
      assert es[..i][j] == es[j];
      if es[j].Handle? {
        PassByStatus(After(items, es[..j]), es[j].now, es[j].views, n);
      }
    }
    assert es[..i + 1][..i] == es[..i];
    PassByStatus(After(items, es[..i]), es[i].now, es[i].views, n);
  }

  // A new subscription starts with all attempts left and nothing to wait for,
  // and leaves the other clients alone.
  lemma {:induction false} SubscriptionStarts(items: Items, n: string)
    requires n !in items
    ensures Next(items, Subscribe(n)) == items[n := Retry.Block(0, 0)]
  {
  }

  // So a new client that stays disconnected is connected on the first pass at a
  // positive clock reading.
  lemma {:induction false} FirstConnect(items: Items, es: seq<Event>, n: string, info: ClientInfo, i: nat)
    requires n !in items && info.connectionAttempt > 0 && StaysDisconnected(es, n, info) && i < |es|
    requires es[i].Handle? && es[i].now > 0 && NoneDue(es[..i], 0)
    ensures var s := Next(items, Subscribe(n));
            CallsOf(ActionFor(After(s, es[..i]), es[i], n), n) == [Connect(n)]
  {
    SubscriptionStarts(items, n);
    ConnectsWhenDue(Next(items, Subscribe(n)), es, n, info, i);
  }

  // The handler's pass as a loop over the blocks.
  function HandlerRule(now: int, views: map<string, ClientView>): Sweep.Rule<string, Retry.Block, Call> {
    Sweep.Rule((n, b) => NextBlock(b, ViewOf(views, n), now),
               (n, b) => CallsOf(ActionOn(b, ViewOf(views, n), now), n),
               Client)
  }

  // A finished pass is one Handle event, and each client got just its calls.
  lemma {:induction false} PassIsHandle(before: Items, now: int, views: map<string, ClientView>, items: Items,
                                        added: seq<Call>)
    requires Sweep.Swept(HandlerRule(now, views), before, {}, items, added)
    ensures items == Next(before, Handle(now, views))
    ensures forall n :: n in before ==>
              CallsFor(added, n) == CallsOf(ActionFor(before, Handle(now, views), n), n)
    ensures forall i :: 0 <= i < |added| ==> added[i].name in before
  {
    Sweep.SweepDone(HandlerRule(now, views), before, items, added);
    forall n | n in before
      ensures CallsFor(added, n) == CallsOf(ActionFor(before, Handle(now, views), n), n)
    {
      assert Sweep.Of(Client, added, n) == HandlerRule(now, views).emit(n, before[n]);
    }
    assert forall i :: 0 <= i < |added| ==> Client(added[i]) == Some(added[i].name);
  }

  class CConnMan {
    var connectableItems: Items
    // connect() calls and reports made so far.
    var log: seq<Call>

    constructor ()
      ensures connectableItems == map[] && log == []
    {
      connectableItems, log := map[], [];
    }

    method AddSubscription(name: string)
      modifies this
      ensures connectableItems == Next(old(connectableItems), Subscribe(name))
      ensures log == old(log) + if name in old(connectableItems) then [ReportDoubleInsertion(name)] else []
    {
      if name in connectableItems {
        log := log + [ReportDoubleInsertion(name)];
      } else {
        connectableItems := connectableItems[name := Retry.Block(0, 0)];
      }
    }

    method RemoveSubscription(name: string)
      modifies this`connectableItems
      ensures connectableItems == Next(old(connectableItems), Unsubscribe(name))
    {
      if name in connectableItems {
        connectableItems := connectableItems - {name};
      }
    }

    // One turn of the handler's loop.
    method HandleClient(n: string, now: int, view: ClientView)
      requires n in connectableItems
      modifies this
      ensures connectableItems == old(connectableItems)[n := NextBlock(old(connectableItems)[n], view, now)]
      ensures log == old(log) + CallsOf(ActionOn(old(connectableItems)[n], view, now), n)
      ensures view.Live? && view.status == DISCONNECTED && now > old(connectableItems)[n].deadline ==>
                var b := old(connectableItems)[n];
                if b.spent < view.info.connectionAttempt then
                  && log == old(log) + [Connect(n)]
                  && connectableItems == old(connectableItems)[n := Retry.Block(
                       b.spent + 1, now + view.info.connectionTimeout + view.info.connectionCycleTimeout)]
                else
                  && log == old(log) + (if b.spent == view.info.connectionAttempt then [ReportExhausted(n)] else [])
                  && connectableItems == old(connectableItems)[n := Retry.Block((b.spent + 1) % TWO32, b.deadline)]
      ensures view.Live? && view.status == CONNECTED ==>
                && log == old(log)
                && connectableItems == old(connectableItems)[n := Retry.Block(0, old(connectableItems)[n].deadline)]
    {
      var item := connectableItems[n];
      if view.Live? {
        if view.status == DISCONNECTED {
          if now > item.deadline {
            if item.spent < view.info.connectionAttempt {
              log := log + [Connect(n)];
              connectableItems := connectableItems[n := Retry.Block(
                item.spent + 1,
                now + view.info.connectionTimeout + view.info.connectionCycleTimeout)];
            } else {
              connectableItems := connectableItems[n := item.(spent := (item.spent + 1) % TWO32)];
              if item.spent == view.info.connectionAttempt {
                log := log + [ReportExhausted(n)];
              }
            }
          }
        } else if view.status == CONNECTED {
          connectableItems := connectableItems[n := item.(spent := 0)];
        }
      }
    }

    // One turn of the handler's loop as a step of the pass; `start` is where
    // the log of this pass begins.
    method HandleTurn(n: string, now: int, views: map<string, ClientView>,
                      ghost before: Items, ghost todo: set<string>, ghost start: nat)
      requires start <= |log| && n in todo
      requires Sweep.Swept(HandlerRule(now, views), before, todo, connectableItems, log[start..])
      modifies this
      ensures start <= |log| && log[..start] == old(log[..start])
      ensures Sweep.Swept(HandlerRule(now, views), before, todo - {n}, connectableItems, log[start..])
    {
      ghost var more := CallsOf(ActionOn(connectableItems[n], ViewOf(views, n), now), n);
      Sweep.SweepTurn(HandlerRule(now, views), before, todo, connectableItems, log[start..], n);
      HandleClient(n, now, ViewOf(views, n));
      assert log[start..] == old(log[start..]) + more;
    }

    // The loop of the handler: all clients, in the map's own order.
    method HandleAll(now: int, views: map<string, ClientView>)
      modifies this
      ensures |old(log)| <= |log| && log[..|old(log)|] == old(log)
      ensures Sweep.Swept(HandlerRule(now, views), old(connectableItems), {}, connectableItems, log[|old(log)|..])
    {
      ghost var before, start := connectableItems, |log|;
      var todo := connectableItems.Keys;
      Sweep.SweepStart(HandlerRule(now, views), before);
      assert log[start..] == [];
      while todo != {}
        invariant start <= |log| && log[..start] == old(log)
        invariant Sweep.Swept(HandlerRule(now, views), before, todo, connectableItems, log[start..])
        decreases |todo|
      {
        var n :| n in todo;
        HandleTurn(n, now, views, before, todo, start);
        todo := todo - {n};
      }
    }

    // connectionHandler; `now` was read before the lock was taken.
    method ConnectionHandler(now: int, views: map<string, ClientView>)
      modifies this
      ensures connectableItems == Next(old(connectableItems), Handle(now, views))
      ensures |old(log)| <= |log| && log[..|old(log)|] == old(log)
      ensures forall n :: n in old(connectableItems) ==>
                CallsFor(log[|old(log)|..], n) == CallsOf(ActionFor(old(connectableItems), Handle(now, views), n), n)
      ensures forall i :: 0 <= i < |log[|old(log)|..]| ==> log[|old(log)|..][i].name in old(connectableItems)
      ensures forall n :: n in old(connectableItems) ==>
                (CallsFor(log[|old(log)|..], n) == [Connect(n)] <==>
                   IsDisconnected(views, n) && now > old(connectableItems)[n].deadline
                   && old(connectableItems)[n].spent < views[n].info.connectionAttempt)
    {
      forall n | n in connectableItems
        ensures CallsOf(ActionFor(connectableItems, Handle(now, views), n), n) == [Connect(n)] <==>
                IsDisconnected(views, n) && now > connectableItems[n].deadline
                && connectableItems[n].spent < views[n].info.connectionAttempt
      {
        PassByStatus(connectableItems, now, views, n);
      }
      HandleAll(now, views);
      PassIsHandle(old(connectableItems), now, views, connectableItems, log[|old(log)|..]);
    }
  }
}
