// The cyclic-timer protocol of the executor as a transition system. A live id
// owns a timer; every asynchronous wait that was started and not yet answered
// by a handler run is a token, either still armed on the timer or queued in
// the io_service as a completion.
module CyclicTimers {
  import opened Common

  type Id = Uint32

  // Identity of a function object handed to the executor.
  type Task = nat

  datatype CycleItem = CycleItem(expiry: int, armed: bool, period: int, task: Task)

  datatype Completion = Completion(id: Id, aborted: bool)

  // A function object in the io_service queue; `origin` is the cyclic id whose
  // handler posted it, None for a plain `execute`.
  datatype Job = Job(origin: Option<Id>, task: Task)

  datatype State = State(
    now: int,
    items: map<Id, CycleItem>,
    completions: multiset<Completion>,
    jobs: multiset<Job>,
    stopped: bool)

  datatype Event =
    | Advance(time: int)                              // the clock moves on, never back
    | Register(id: Id, period: int, task: Task)       // execute_cyclic drew `id`
    | Fire(id: Id)                                    // the timer of `id` expires
    | Handle(completion: Completion)                  // a worker runs the timeout handler
    | RunJob(job: Job)                                // a worker runs a posted function
    | Post(task: Task)                                // execute
    | Stop(id: Id)                                    // stop_cyclic
    | CancelTimer(id: Id)                             // stopExecution, one turn of its loop
    | Clear                                           // stopExecution drops all items
    | StopService                                     // stopExecution stops the io_service

  // Waits whose timer is cancelled or destroyed are answered as aborted.
  function Aborted(item: CycleItem, id: Id): multiset<Completion> {
    if item.armed then multiset{Completion(id, true)} else multiset{}
  }

  function AbortedAll(items: map<Id, CycleItem>): multiset<Completion> {
    multiset(set id | id in items && items[id].armed :: Completion(id, true))
  }

  function Registered(s: State, id: Id, period: int, task: Task): State {
    if id in s.items then
      // The insert fails; the new timer already waits for the old id and dies.
      s.(completions := s.completions + multiset{Completion(id, true)})
    else
      s.(items := s.items[id := CycleItem(s.now + period, true, period, task)])
  }

  function Fired(s: State, id: Id): State {
    if !s.stopped && id in s.items && s.items[id].armed && s.now >= s.items[id].expiry then
      s.(items := s.items[id := s.items[id].(armed := false)],
         completions := s.completions + multiset{Completion(id, false)})
    else s
  }

  // The timeout handler: post the task, move the deadline by one period, which
  // cancels a wait still armed, and wait again.
  function Handled(s: State, c: Completion): State {
    if s.stopped || c !in s.completions then s
    else
      var left := s.completions - multiset{c};
      if c.id !in s.items then s.(completions := left)
      else
        var item := s.items[c.id];
        s.(items := s.items[c.id := item.(expiry := item.expiry + item.period, armed := true)],
           completions := left + Aborted(item, c.id),
           jobs := s.jobs + multiset{Job(Some(c.id), item.task)})
  }

  function Stopped(s: State, id: Id): State {
    if id !in s.items then s
    else s.(items := s.items - {id}, completions := s.completions + Aborted(s.items[id], id))
  }

  function Cancelled(s: State, id: Id): State {
    if id !in s.items then s
    else s.(items := s.items[id := s.items[id].(armed := false)],
            completions := s.completions + Aborted(s.items[id], id))
  }

  function Cleared(s: State): State {
    s.(items := map[], completions := s.completions + AbortedAll(s.items))
  }

  // An event that cannot happen in `s` leaves `s` as it is, so every sequence
  // of events is a run.
  function Next(s: State, e: Event): State {
    match e
    case Advance(t) => if t > s.now then s.(now := t) else s
    case Register(id, period, task) => Registered(s, id, period, task)
    case Fire(id) => Fired(s, id)
    case Handle(c) => Handled(s, c)
    case RunJob(j) => if s.stopped || j !in s.jobs then s else s.(jobs := s.jobs - multiset{j})
    case Post(task) => s.(jobs := s.jobs + multiset{Job(None, task)})
    case Stop(id) => Stopped(s, id)
    case CancelTimer(id) => Cancelled(s, id)
    case Clear => Cleared(s)
    case StopService => s.(stopped := true)
  }

  function After(s: State, es: seq<Event>): State {
    if es == [] then s else Next(After(s, es[..|es| - 1]), es[|es| - 1])
  }

  function Initial(now: int): State {
    State(now, map[], multiset{}, multiset{}, false)
  }

  // ---------------------------------------------------------------- tokens

  function Queued(s: State, id: Id): nat {
    s.completions[Completion(id, false)] + s.completions[Completion(id, true)]
  }

  function Tokens(s: State, id: Id): nat {
    Queued(s, id) + if id in s.items && s.items[id].armed then 1 else 0
  }

  // The handler run with this completion takes effect and finds no live item.
  predicate Drains(s: State, e: Event, id: Id) {
    e.Handle? && e.completion.id == id && e.completion in s.completions && !s.stopped && id !in s.items
  }

  // Tokens are conserved: only a registration makes one and only a handler run
  // for an id that is gone destroys one, whatever ids rand() draws.
  lemma {:induction false} TokenConservation(s: State, e: Event, id: Id)
    ensures Tokens(Next(s, e), id) ==
            Tokens(s, id)
            + (if e.Register? && e.id == id then 1 else 0)
            - (if Drains(s, e, id) then 1 else 0)
  {
    match e
    case Advance(_) =>
    case Register(k, period, task) => TokensRegistered(s, k, period, task, id);
    case Fire(k) => TokensFired(s, k, id);
    case Handle(c) => TokensHandled(s, c, id);
    case RunJob(_) =>
    case Post(_) =>
    case Stop(k) => TokensStopped(s, k, id);
    case CancelTimer(k) => TokensCancelled(s, k, id);
    case Clear => TokensCleared(s, id);
    case StopService =>
  }

  lemma {:induction false} TokensRegistered(s: State, k: Id, period: int, task: Task, id: Id)
    ensures Tokens(Registered(s, k, period, task), id) == Tokens(s, id) + if k == id then 1 else 0
  {
  }

  lemma {:induction false} TokensFired(s: State, k: Id, id: Id)
    ensures Tokens(Fired(s, k), id) == Tokens(s, id)
  {
  }

  lemma {:induction false} TokensHandled(s: State, c: Completion, id: Id)
    ensures Tokens(Handled(s, c), id) == Tokens(s, id) - if Drains(s, Handle(c), id) then 1 else 0
  {
    if s.stopped || c !in s.completions {
    } else if c.id !in s.items {
      QueuedWithout(s, c, id);
    } else {
      QueuedWithout(s, c, id);
      QueuedAborted(Without(s, c), c.id, id);
    }
  }

  function Without(s: State, c: Completion): State {
    s.(completions := s.completions - multiset{c})
  }

  lemma {:induction false} QueuedWithout(s: State, c: Completion, id: Id)
    requires c in s.completions
    ensures Queued(Without(s, c), id) == Queued(s, id) - if c.id == id then 1 else 0
  {
    assert c == Completion(c.id, c.aborted);
  }

  lemma {:induction false} QueuedAborted(s: State, k: Id, id: Id)
    requires k in s.items
    ensures Queued(s.(completions := s.completions + Aborted(s.items[k], k)), id) ==
            Queued(s, id) + if k == id && s.items[k].armed then 1 else 0
  {
  }

  lemma {:induction false} TokensStopped(s: State, k: Id, id: Id)
    ensures Tokens(Stopped(s, k), id) == Tokens(s, id)
  {
  }

  lemma {:induction false} TokensCancelled(s: State, k: Id, id: Id)
    ensures Tokens(Cancelled(s, k), id) == Tokens(s, id)
  {
  }

  lemma {:induction false} TokensCleared(s: State, id: Id)
    ensures Tokens(Cleared(s), id) == Tokens(s, id)
  {
    assert AbortedAll(s.items)[Completion(id, false)] == 0;
    assert AbortedAll(s.items)[Completion(id, true)] == if id in s.items && s.items[id].armed then 1 else 0;
  }

  // rand() returned an id that is neither live nor carried by a completion.
  predicate Fresh(s: State, e: Event) {
    e.Register? ==> Tokens(s, e.id) == 0 && e.id !in s.items
  }

  ghost predicate FreshRun(s: State, es: seq<Event>) {
    es != [] ==>
      FreshRun(s, es[..|es| - 1]) && Fresh(After(s, es[..|es| - 1]), es[|es| - 1])
  }

  ghost predicate OneTokenEach(s: State) {
    forall id: Id :: if id in s.items then Tokens(s, id) == 1 else Tokens(s, id) <= 1
  }

  lemma {:induction false} OneTokenStep(s: State, e: Event)
    requires OneTokenEach(s) && Fresh(s, e)
    ensures OneTokenEach(Next(s, e))
  {
    var t := Next(s, e);
    forall id: Id
      ensures if id in t.items then Tokens(t, id) == 1 else Tokens(t, id) <= 1
    {
      TokenConservation(s, e, id);
    }
  }

  // In every reachable state each live id has exactly one outstanding token.
  lemma {:induction false} OneToken(now: int, es: seq<Event>)
    requires FreshRun(Initial(now), es)
    ensures OneTokenEach(After(Initial(now), es))
  {
    if es != [] {
      var init := es[..|es| - 1];
      OneToken(now, init);
      OneTokenStep(After(Initial(now), init), es[|es| - 1]);
    }
  }

  // Freshness of the draw is exactly what a registration needs.
  lemma {:induction false} OneTokenNeedsFreshness(s: State, id: Id, period: int, task: Task)
    requires OneTokenEach(s)
    ensures OneTokenEach(Next(s, Register(id, period, task))) <==> Fresh(s, Register(id, period, task))
  {
    var e := Register(id, period, task);
    if Fresh(s, e) {
      OneTokenStep(s, e);
    } else {
      TokenConservation(s, e, id);
      assert id in Next(s, e).items && Tokens(Next(s, e), id) > 1;
    }
  }

  // At every moment of the run.
  ghost predicate OneTokenThroughout(s: State, es: seq<Event>) {
    && OneTokenEach(After(s, es))
    && (es != [] ==> OneTokenThroughout(s, es[..|es| - 1]))
  }

  // A run keeps one token per live id at every moment exactly when every id it
  // draws is fresh.
  lemma {:induction false} OneTokenIffFresh(now: int, es: seq<Event>)
    ensures OneTokenThroughout(Initial(now), es) <==> FreshRun(Initial(now), es)
  {
    if es != [] {
      var init, e := es[..|es| - 1], es[|es| - 1];
      OneTokenIffFresh(now, init);
      if FreshRun(Initial(now), init) {
        OneToken(now, init);
        OneTokenNext(After(Initial(now), init), e);
      }
    }
  }

  lemma {:induction false} OneTokenNext(s: State, e: Event)
    requires OneTokenEach(s)
    ensures OneTokenEach(Next(s, e)) <==> Fresh(s, e)
  {
    if e.Register? {
      OneTokenNeedsFreshness(s, e.id, e.period, e.task);
    } else {
      OneTokenStep(s, e);
    }
  }

  // One handler run for `id`, an aborted completion first if there is one.
  function HandlerRun(s: State, id: Id): State {
    Handled(s, Completion(id, Completion(id, true) in s.completions))
  }

  function HandlerRuns(s: State, id: Id, n: nat): State {
    if n == 0 then s else HandlerRun(HandlerRuns(s, id, n - 1), id)
  }

  // From s to t the task of `id` was posted n more times at one clock reading.
  ghost predicate Spun(s: State, t: State, id: Id, n: nat)
    requires id in s.items
  {
    var job := Job(Some(id), s.items[id].task);
    && id in t.items && t.items[id].task == s.items[id].task
    && Tokens(t, id) == Tokens(s, id) && t.stopped == s.stopped && t.now == s.now
    && t.jobs[job] == s.jobs[job] + n
  }

  lemma {:induction false} SpinOnce(s: State, id: Id)
    requires id in s.items && Tokens(s, id) >= 2 && !s.stopped
    ensures Spun(s, HandlerRun(s, id), id, 1)
  {
    var c := Completion(id, Completion(id, true) in s.completions);
    assert c in s.completions;
    TokensHandled(s, c, id);
  }

  lemma {:induction false} SpinMore(s: State, t: State, u: State, id: Id, n: nat)
    requires id in s.items && Spun(s, t, id, n) && Spun(t, u, id, 1)
    ensures Spun(s, u, id, n + 1)
  {
  }

  // A colliding draw leaves the id with a second token, and then the handler
  // can run any number of times without the clock moving, posting each time.
  lemma {:induction false} CollisionSpins(s: State, id: Id, n: nat)
    requires id in s.items && Tokens(s, id) >= 2 && !s.stopped
    ensures Spun(s, HandlerRuns(s, id, n), id, n)
  {
    if n > 0 {
      CollisionSpins(s, id, n - 1);
      var t := HandlerRuns(s, id, n - 1);
      SpinOnce(t, id);
      SpinMore(s, t, HandlerRun(t, id), id, n - 1);
    }
  }

  lemma {:induction false} CollisionMakesTwoTokens(s: State, id: Id, period: int, task: Task)
    requires OneTokenEach(s) && id in s.items
    ensures Tokens(Next(s, Register(id, period, task)), id) == 2
    ensures Next(s, Register(id, period, task)).items == s.items
  {
    TokenConservation(s, Register(id, period, task), id);
  }

  // ---------------------------------------------------------------- history

  // What happened under the current (or last) registration of an id.
  datatype Life = Life(born: int, period: int, posts: seq<int>)

  datatype History = History(lives: map<Id, Life>, posted: multiset<Job>, ran: multiset<Job>)

  predicate Posts(s: State, e: Event) {
    e.Handle? && !s.stopped && e.completion in s.completions && e.completion.id in s.items
  }

  function Record(h: History, s: State, e: Event): History {
    match e
    case Register(id, period, _) =>
      if id in s.items then h else h.(lives := h.lives[id := Life(s.now, period, [])])
    case Handle(c) =>
      if !Posts(s, e) then h
      else
        var life := if c.id in h.lives then h.lives[c.id] else Life(s.now, s.items[c.id].period, []);
        h.(lives := h.lives[c.id := life.(posts := life.posts + [s.now])],
           posted := h.posted + multiset{Job(Some(c.id), s.items[c.id].task)})
    case Post(task) => h.(posted := h.posted + multiset{Job(None, task)})
    case RunJob(j) =>
      if s.stopped || j !in s.jobs then h else h.(ran := h.ran + multiset{j})
    case _ => h
  }

  function HistoryOf(s: State, es: seq<Event>): History {
    if es == [] then History(map[], multiset{}, multiset{})
    else Record(HistoryOf(s, es[..|es| - 1]), After(s, es[..|es| - 1]), es[|es| - 1])
  }

  // ---------------------------------------------------------------- schedule

  ghost predicate OnSchedule(s: State, h: History, id: Id) {
    id in s.items ==>
      && id in h.lives
      && h.lives[id].period == s.items[id].period
      && s.items[id].expiry == h.lives[id].born + (|h.lives[id].posts| + 1) * s.items[id].period
  }

  // Only a registration or a handler run touches expiry and period of an item.
  lemma {:induction false} KeepsExpiry(s: State, e: Event, id: Id)
    requires !e.Handle? && !e.Register?
    ensures id in Next(s, e).items ==>
              && id in s.items && Next(s, e).items[id].expiry == s.items[id].expiry
              && Next(s, e).items[id].period == s.items[id].period
  {
  }

  lemma {:induction false} OnScheduleOther(s: State, h: History, e: Event, id: Id)
    requires OnSchedule(s, h, id) && !e.Handle? && !e.Register?
    ensures OnSchedule(Next(s, e), Record(h, s, e), id)
  {
    KeepsExpiry(s, e, id);
    assert Record(h, s, e).lives == h.lives;
  }

  lemma {:induction false} OnScheduleStep(s: State, h: History, e: Event, id: Id)
    requires OnSchedule(s, h, id)
    ensures OnSchedule(Next(s, e), Record(h, s, e), id)
  {
    if e.Handle? {
      OnScheduleHandled(s, h, e.completion, id);
    } else if e.Register? {
      OnScheduleRegistered(s, h, e.id, e.period, e.task, id);
    } else {
      OnScheduleOther(s, h, e, id);
    }
  }

  lemma {:induction false} OnScheduleRegistered(s: State, h: History, k: Id, period: int, task: Task, id: Id)
    requires OnSchedule(s, h, id)
    ensures OnSchedule(Registered(s, k, period, task), Record(h, s, Register(k, period, task)), id)
  {
  }

  lemma {:induction false} OnScheduleHandled(s: State, h: History, c: Completion, id: Id)
    requires OnSchedule(s, h, id)
    ensures OnSchedule(Handled(s, c), Record(h, s, Handle(c)), id)
  {
    if Posts(s, Handle(c)) && c.id == id {
      Distribute(|h.lives[id].posts| + 1, s.items[id].period);
    }
  }

  // After k posts the deadline is exactly birth + (k+1)*period, on every run,
  // colliding draws, shutdown and late handlers included.
  lemma {:induction false} NoDrift(now: int, es: seq<Event>)
    ensures forall id: Id :: OnSchedule(After(Initial(now), es), HistoryOf(Initial(now), es), id)
  {
    if es != [] {
      var init, e := es[..|es| - 1], es[|es| - 1];
      NoDrift(now, init);
      var s, h := After(Initial(now), init), HistoryOf(Initial(now), init);
      forall id: Id
        ensures OnSchedule(Next(s, e), Record(h, s, e), id)
      {
        OnScheduleStep(s, h, e, id);
      }
    }
  }

  // A queued completion that is not aborted means the timer really expired.
  predicate QueuedIsDue(s: State, id: Id) {
    id in s.items && Completion(id, false) in s.completions ==> s.items[id].expiry <= s.now
  }

  lemma {:induction false} QueuedIsDueStep(s: State, e: Event, id: Id)
    requires OneTokenEach(s) && QueuedIsDue(s, id) && Fresh(s, e)
    ensures QueuedIsDue(Next(s, e), id)
  {
    match e
    case Handle(c) => QueuedIsDueHandled(s, c, id);
    case Register(k, _, _) => assert k == id ==> Tokens(s, k) == 0;
    case Fire(k) => QueuedIsDueFired(s, k, id);
    case Stop(k) =>
    case CancelTimer(k) =>
    case _ =>
  }

  lemma {:induction false} QueuedIsDueHandled(s: State, c: Completion, id: Id)
    requires OneTokenEach(s) && QueuedIsDue(s, id)
    ensures QueuedIsDue(Handled(s, c), id)
  {
    assert id in s.items ==> Tokens(s, id) == 1;
  }

  lemma {:induction false} QueuedIsDueFired(s: State, k: Id, id: Id)
    requires QueuedIsDue(s, id)
    ensures QueuedIsDue(Fired(s, k), id)
  {
  }

  lemma {:induction false} QueuedAreDue(now: int, es: seq<Event>, id: Id)
    requires FreshRun(Initial(now), es)
    ensures QueuedIsDue(After(Initial(now), es), id)
  {
    if es != [] {
      var init := es[..|es| - 1];
      QueuedAreDue(now, init, id);
      OneToken(now, init);
      QueuedIsDueStep(After(Initial(now), init), es[|es| - 1], id);
    }
  }

  // Posts are in clock order, none before the birth or in the future.
  ghost predicate Ordered(life: Life, now: int) {
    && (forall j :: 0 <= j < |life.posts| ==> life.posts[j] <= now)
    && (forall i, j :: 0 <= i < j < |life.posts| ==> life.posts[i] <= life.posts[j])
    && life.born <= now
  }

  ghost predicate OrderedId(h: History, now: int, id: Id) {
    id in h.lives ==> Ordered(h.lives[id], now)
  }

  lemma {:induction false} OrderedPost(life: Life, now: int)
    requires Ordered(life, now)
    ensures Ordered(life.(posts := life.posts + [now]), now)
  {
  }

  lemma {:induction false} OrderedLater(h: History, now: int, later: int, id: Id)
    requires OrderedId(h, now, id) && now <= later
    ensures OrderedId(h, later, id)
  {
  }

  lemma {:induction false} OrderedHandled(s: State, h: History, c: Completion, id: Id)
    requires OrderedId(h, s.now, id)
    ensures OrderedId(Record(h, s, Handle(c)), s.now, id)
  {
    if Posts(s, Handle(c)) && c.id == id && id in h.lives {
      OrderedPost(h.lives[id], s.now);
    }
  }

  lemma {:induction false} OrderedStep(s: State, h: History, e: Event, id: Id)
    requires OrderedId(h, s.now, id)
    ensures OrderedId(Record(h, s, e), Next(s, e).now, id)
  {
    match e
    case Advance(t) => OrderedLater(h, s.now, Next(s, e).now, id);
    case Handle(c) => OrderedHandled(s, h, c, id);
    case Register(_, _, _) =>
    case _ => assert Record(h, s, e).lives == h.lives && Next(s, e).now == s.now;
  }

  lemma {:induction false} PostsOrdered(now: int, es: seq<Event>, id: Id)
    ensures OrderedId(HistoryOf(Initial(now), es), After(Initial(now), es).now, id)
  {
    if es != [] {
      var init := es[..|es| - 1];
      PostsOrdered(now, init, id);
      OrderedStep(After(Initial(now), init), HistoryOf(Initial(now), init), es[|es| - 1], id);
    }
  }

  // Post number j of a life is not before birth + (j+1)*period.
  ghost predicate OnTime(life: Life) {
    forall j :: 0 <= j < |life.posts| ==> life.born + (j + 1) * life.period <= life.posts[j]
  }

  // The handler of a live id runs with an aborted completion ahead of the
  // deadline: what a check of the error code would have caught.
  predicate Premature(s: State, e: Event, id: Id) {
    && Posts(s, e) && e.completion == Completion(id, true)
    && s.now < s.items[id].expiry
  }

  // No such handler run since the last registration of `id`.
  ghost predicate NeverPremature(s: State, es: seq<Event>, id: Id) {
    es != [] ==>
      var init, e := es[..|es| - 1], es[|es| - 1];
      var t := After(s, init);
      Born(t, e, id) || (NeverPremature(s, init, id) && !Premature(t, e, id))
  }

  predicate Born(s: State, e: Event, id: Id) {
    e.Register? && e.id == id && id !in s.items
  }

  lemma {:induction false} OnTimePost(life: Life, t: int)
    ensures OnTime(life.(posts := life.posts + [t])) <==>
            OnTime(life) && life.born + (|life.posts| + 1) * life.period <= t
  {
    var more := life.(posts := life.posts + [t]);
    assert forall j :: 0 <= j < |life.posts| ==> more.posts[j] == life.posts[j];
    assert more.posts[|life.posts|] == t;
  }

  lemma {:induction false} OnTimeStep(s: State, h: History, e: Event, id: Id)
    requires OnSchedule(s, h, id) && QueuedIsDue(s, id) && id in Record(h, s, e).lives && !Born(s, e, id)
    ensures id in h.lives
    ensures OnTime(Record(h, s, e).lives[id]) <==> OnTime(h.lives[id]) && !Premature(s, e, id)
  {
    if Posts(s, e) && e.completion.id == id {
      OnTimePost(h.lives[id], s.now);
      assert e.completion == Completion(id, e.completion.aborted);
    }
  }

  // On every fresh run, shutdown included, and at every moment: no post of the
  // current life was early exactly when none of its handler runs took an
  // aborted completion ahead of the deadline.
  lemma {:induction false} OnTimeExact(now: int, es: seq<Event>, id: Id)
    requires FreshRun(Initial(now), es) && id in HistoryOf(Initial(now), es).lives
    ensures OnTime(HistoryOf(Initial(now), es).lives[id]) <==> NeverPremature(Initial(now), es, id)
  {
    if es != [] {
      var init, e := es[..|es| - 1], es[|es| - 1];
      var s, h := After(Initial(now), init), HistoryOf(Initial(now), init);
      if !Born(s, e, id) {
        NoDrift(now, init);
        QueuedAreDue(now, init, id);
        OnTimeStep(s, h, e, id);
        OnTimeExact(now, init, id);
      }
    }
  }

  // stopExecution has not begun to cancel timers.
  ghost predicate NoCancel(es: seq<Event>) {
    forall i :: 0 <= i < |es| ==> !es[i].CancelTimer?
  }

  predicate NoneAborted(s: State, id: Id) {
    id in s.items ==> Completion(id, true) !in s.completions
  }

  lemma {:induction false} NoneAbortedStep(s: State, e: Event, id: Id)
    requires OneTokenEach(s) && NoneAborted(s, id) && Fresh(s, e) && !e.CancelTimer?
    ensures NoneAborted(Next(s, e), id)
  {
    match e
    case Handle(c) => NoneAbortedHandled(s, c, id);
    case Register(k, _, _) => assert k == id ==> Tokens(s, k) == 0;
    case Fire(k) =>
    case Stop(k) =>
    case _ =>
  }

  lemma {:induction false} NoneAbortedHandled(s: State, c: Completion, id: Id)
    requires OneTokenEach(s) && NoneAborted(s, id)
    ensures NoneAborted(Handled(s, c), id)
  {
    assert id in s.items ==> Tokens(s, id) == 1;
  }

  lemma {:induction false} NoCancelNoneAborted(now: int, es: seq<Event>, id: Id)
    requires FreshRun(Initial(now), es) && NoCancel(es)
    ensures NoneAborted(After(Initial(now), es), id) && NeverPremature(Initial(now), es, id)
  {
    if es != [] {
      var init := es[..|es| - 1];
      NoCancelNoneAborted(now, init, id);
      OneToken(now, init);
      NoneAbortedStep(After(Initial(now), init), es[|es| - 1], id);
    }
  }

  ghost predicate Punctual(life: Life, now: int) {
    OnTime(life) && Ordered(life, now)
  }

  ghost predicate PunctualId(h: History, now: int, id: Id) {
    id in h.lives ==> Punctual(h.lives[id], now)
  }

  lemma {:induction false} PunctualRun(now: int, es: seq<Event>, id: Id)
    requires FreshRun(Initial(now), es) && NeverPremature(Initial(now), es, id)
    ensures PunctualId(HistoryOf(Initial(now), es), After(Initial(now), es).now, id)
  {
    PostsOrdered(now, es, id);
    if id in HistoryOf(Initial(now), es).lives {
      OnTimeExact(now, es, id);
    }
  }

  // In particular no post is early before shutdown, however the handlers are
  // delayed.
  lemma {:induction false} NeverEarly(now: int, es: seq<Event>, id: Id)
    requires FreshRun(Initial(now), es) && NoCancel(es)
    ensures PunctualId(HistoryOf(Initial(now), es), After(Initial(now), es).now, id)
  {
    NoCancelNoneAborted(now, es, id);
    PunctualRun(now, es, id);
  }

  function PostsBy(posts: seq<int>, t: int): nat {
    if posts == [] then 0
    else PostsBy(posts[..|posts| - 1], t) + if posts[|posts| - 1] <= t then 1 else 0
  }

  lemma {:induction false} PostsByBound(life: Life, now: int, t: int, n: nat)
    requires Punctual(life, now) && life.born <= t && life.period >= 0 && n <= |life.posts|
    ensures PostsBy(life.posts[..n], t) <= n
    ensures PostsBy(life.posts[..n], t) * life.period <= t - life.born
  {
    if n > 0 {
      PostsByBound(life, now, t, n - 1);
      assert life.posts[..n][..n - 1] == life.posts[..n - 1];
      if life.posts[n - 1] <= t {
        ProductMonotone(PostsBy(life.posts[..n], t), n, life.period);
      }
    }
  }

  lemma {:induction false} RateOfLife(life: Life, now: int, t: int)
    requires Punctual(life, now) && life.period > 0 && life.born <= t
    ensures PostsBy(life.posts, t) <= (t - life.born) / life.period
  {
    assert life.posts[..|life.posts|] == life.posts;
    PostsByBound(life, now, t, |life.posts|);
    QuotientAtLeast(PostsBy(life.posts, t), life.period, t - life.born);
  }

  lemma {:induction false} CountOfLife(life: Life, now: int)
    requires Punctual(life, now) && life.period > 0 && now < life.born + (|life.posts| + 1) * life.period
    ensures |life.posts| == (now - life.born) / life.period
  {
    var k := |life.posts|;
    assert k * life.period <= now - life.born by {
      if k > 0 {
        assert life.born + (k - 1 + 1) * life.period <= life.posts[k - 1] <= now;
      }
    }
    QuotientAtLeast(k, life.period, now - life.born);
    QuotientBelow(k + 1, life.period, now - life.born);
  }

  ghost predicate RateBounded(h: History, id: Id, t: int) {
    id in h.lives && h.lives[id].period > 0 && h.lives[id].born <= t ==>
      PostsBy(h.lives[id].posts, t) <= (t - h.lives[id].born) / h.lives[id].period
  }

  lemma {:induction false} RateNow(h: History, now: int, id: Id, t: int)
    requires PunctualId(h, now, id)
    ensures RateBounded(h, id, t)
  {
    if id in h.lives && h.lives[id].period > 0 && h.lives[id].born <= t {
      RateOfLife(h.lives[id], now, t);
    }
  }

  // At any time t at most floor((t - birth) / period) posts were made.
  lemma {:induction false} PostRate(now: int, es: seq<Event>, id: Id, t: int)
    requires FreshRun(Initial(now), es) && NeverPremature(Initial(now), es, id)
    ensures RateBounded(HistoryOf(Initial(now), es), id, t)
  {
    PunctualRun(now, es, id);
    RateNow(HistoryOf(Initial(now), es), After(Initial(now), es).now, id, t);
  }

  // It does happen: between the cancel loop and the clearing of the items, the
  // handler answers a cancelled wait by posting ahead of time.
  lemma {:induction false} CancelledTimerPostsEarly(s: State, id: Id)
    requires id in s.items && s.items[id].armed && s.now < s.items[id].expiry && !s.stopped
    ensures var c := Cancelled(s, id);
            && Premature(c, Handle(Completion(id, true)), id)
            && Handled(c, Completion(id, true)).jobs == s.jobs + multiset{Job(Some(id), s.items[id].task)}
  {
    assert Completion(id, true) in Cancelled(s, id).completions;
  }

  // The next deadline of a live id lies ahead: nothing is waiting to be posted.
  predicate CaughtUp(s: State, id: Id) {
    id in s.items && s.items[id].period > 0 && s.now < s.items[id].expiry
  }

  ghost predicate CountIsExact(s: State, h: History, id: Id) {
    && id in h.lives && h.lives[id].period > 0
    && |h.lives[id].posts| == (s.now - h.lives[id].born) / h.lives[id].period
  }

  lemma {:induction false} Accounts(now: int, es: seq<Event>, id: Id)
    requires FreshRun(Initial(now), es) && NeverPremature(Initial(now), es, id)
    ensures OnSchedule(After(Initial(now), es), HistoryOf(Initial(now), es), id)
    ensures PunctualId(HistoryOf(Initial(now), es), After(Initial(now), es).now, id)
  {
    NoDrift(now, es);
    PunctualRun(now, es, id);
  }

  lemma {:induction false} CountNow(s: State, h: History, id: Id)
    requires OnSchedule(s, h, id) && PunctualId(h, s.now, id) && CaughtUp(s, id)
    ensures CountIsExact(s, h, id)
  {
    CountOfLife(h.lives[id], s.now);
  }

  // Whenever a live id is caught up, exactly floor((now - birth) / period)
  // posts were made: none lost, none early.
  lemma {:induction false} PostCountWhenCaughtUp(now: int, es: seq<Event>, id: Id)
    requires FreshRun(Initial(now), es) && NeverPremature(Initial(now), es, id) && CaughtUp(After(Initial(now), es), id)
    ensures CountIsExact(After(Initial(now), es), HistoryOf(Initial(now), es), id)
  {
    Accounts(now, es, id);
    CountNow(After(Initial(now), es), HistoryOf(Initial(now), es), id);
  }

  // ---------------------------------------------------------------- other ids

  // The event is about this id; dropping all items is about every id.
  predicate Concerns(e: Event, id: Id) {
    match e
    case Register(k, _, _) => k == id
    case Fire(k) => k == id
    case Handle(c) => c.id == id
    case Stop(k) => k == id
    case CancelTimer(k) => k == id
    case Clear => true
    case _ => false
  }

  // An event about one id leaves the item of every other id and what is queued
  // for it alone.
  lemma {:induction false} OthersUntouched(s: State, e: Event, k: Id)
    requires !Concerns(e, k)
    ensures k in Next(s, e).items <==> k in s.items
    ensures k in s.items ==> Next(s, e).items[k] == s.items[k]
    ensures forall aborted :: Next(s, e).completions[Completion(k, aborted)] == s.completions[Completion(k, aborted)]
  {
    match e
    case Handle(c) => OthersHandled(s, c, k);
    case Stop(id) => OthersStopped(s, id, k);
    case CancelTimer(id) => OthersCancelled(s, id, k);
    case _ =>
  }

  lemma {:induction false} OthersStopped(s: State, id: Id, k: Id)
    requires id != k
    ensures k in Stopped(s, id).items <==> k in s.items
    ensures k in s.items ==> Stopped(s, id).items[k] == s.items[k]
    ensures forall aborted ::
              Stopped(s, id).completions[Completion(k, aborted)] == s.completions[Completion(k, aborted)]
  {
  }

  lemma {:induction false} OthersCancelled(s: State, id: Id, k: Id)
    requires id != k
    ensures k in Cancelled(s, id).items <==> k in s.items
    ensures k in s.items ==> Cancelled(s, id).items[k] == s.items[k]
    ensures forall aborted ::
              Cancelled(s, id).completions[Completion(k, aborted)] == s.completions[Completion(k, aborted)]
  {
  }

  lemma {:induction false} OthersHandled(s: State, c: Completion, k: Id)
    requires c.id != k
    ensures k in Handled(s, c).items <==> k in s.items
    ensures k in s.items ==> Handled(s, c).items[k] == s.items[k]
    ensures forall aborted :: Handled(s, c).completions[Completion(k, aborted)] == s.completions[Completion(k, aborted)]
  {
  }

  ghost predicate NeverDropped(es: seq<Event>, id: Id) {
    forall i :: 0 <= i < |es| ==> es[i] != Stop(id) && !es[i].Clear?
  }

  lemma {:induction false} StaysLive(s: State, e: Event, id: Id)
    requires id in s.items && e != Stop(id) && !e.Clear?
    ensures id in Next(s, e).items
    ensures Next(s, e).items[id].period == s.items[id].period && Next(s, e).items[id].task == s.items[id].task
  {
    if !Concerns(e, id) {
      OthersUntouched(s, e, id);
    }
  }

  // A live id stays live, with its period and its task, until it is itself
  // stopped or shutdown drops all items, whatever happens to other ids.
  lemma {:induction false} LiveStaysLive(s: State, es: seq<Event>, id: Id)
    requires id in s.items && NeverDropped(es, id)
    ensures id in After(s, es).items
    ensures After(s, es).items[id].period == s.items[id].period && After(s, es).items[id].task == s.items[id].task
  {
    if es != [] {
      LiveStaysLive(s, es[..|es| - 1], id);
      StaysLive(After(s, es[..|es| - 1]), es[|es| - 1], id);
    }
  }

  // The timer of a live id does its work: once its deadline has passed, the
  // wait can complete, and the handler then posts the id's own task, moves the
  // deadline by one period and waits again.
  lemma {:induction false} CycleTurns(s: State, id: Id, t: int)
    requires id in s.items && s.items[id].armed && !s.stopped && t >= s.now && t >= s.items[id].expiry
    ensures var item := s.items[id];
            Next(Next(Next(s, Advance(t)), Fire(id)), Handle(Completion(id, false))) ==
            s.(now := t,
               items := s.items[id := CycleItem(item.expiry + item.period, true, item.period, item.task)],
               jobs := s.jobs + multiset{Job(Some(id), item.task)})
  {
    ClockMoves(s, t);
    DueTimerPosts(s.(now := t), id);
  }

  lemma {:induction false} ClockMoves(s: State, t: int)
    requires t >= s.now
    ensures Next(s, Advance(t)) == s.(now := t)
  {
  }

  lemma {:induction false} DueTimerPosts(s: State, id: Id)
    requires id in s.items && s.items[id].armed && !s.stopped && s.now >= s.items[id].expiry
    ensures var item := s.items[id];
            Next(Next(s, Fire(id)), Handle(Completion(id, false))) ==
            s.(items := s.items[id := CycleItem(item.expiry + item.period, true, item.period, item.task)],
               jobs := s.jobs + multiset{Job(Some(id), item.task)})
  {
    FireDue(s, id);
    HandleExpired(Next(s, Fire(id)), id);
    PutAndTake(s.completions, Completion(id, false));
  }

  lemma {:induction false} FireDue(s: State, id: Id)
    requires id in s.items && s.items[id].armed && !s.stopped && s.now >= s.items[id].expiry
    ensures Next(s, Fire(id)) ==
            s.(items := s.items[id := s.items[id].(armed := false)],
               completions := s.completions + multiset{Completion(id, false)})
  {
  }

  lemma {:induction false} HandleExpired(s: State, id: Id)
    requires id in s.items && !s.items[id].armed && !s.stopped && Completion(id, false) in s.completions
    ensures var item, r := s.items[id], Next(s, Handle(Completion(id, false)));
            && r.items == s.items[id := CycleItem(item.expiry + item.period, true, item.period, item.task)]
            && r.completions == s.completions - multiset{Completion(id, false)}
            && r.jobs == s.jobs + multiset{Job(Some(id), item.task)}
            && r.now == s.now && r.stopped == s.stopped
  {
  }

  lemma {:induction false} PutAndTake<T>(m: multiset<T>, x: T)
    ensures (m + multiset{x}) - multiset{x} == m
  {
  }

  // A registration with a fresh id starts exactly such a timer, one period from
  // now, and touches nothing else.
  lemma {:induction false} RegistrationArms(s: State, id: Id, period: int, task: Task)
    requires id !in s.items
    ensures var r := Next(s, Register(id, period, task));
            && r.items == s.items[id := CycleItem(s.now + period, true, period, task)]
            && r.completions == s.completions && r.jobs == s.jobs && r.now == s.now && r.stopped == s.stopped
  {
  }

  // ---------------------------------------------------------------- stopping

  ghost predicate NotRedrawn(es: seq<Event>, id: Id) {
    forall i :: 0 <= i < |es| ==> !(es[i].Register? && es[i].id == id)
  }

  function JobsOf(m: multiset<Job>, id: Id, task: Task): nat {
    m[Job(Some(id), task)]
  }

  // One event posts nothing for `id` and runs at most what is queued for it.
  ghost predicate OnlyDrains(s: State, h: History, t: State, g: History, id: Id, task: Task) {
    && id !in t.items
    && JobsOf(t.jobs, id, task) + JobsOf(g.ran, id, task) == JobsOf(s.jobs, id, task) + JobsOf(h.ran, id, task)
    && JobsOf(g.posted, id, task) == JobsOf(h.posted, id, task)
  }

  lemma {:induction false} GoneStep(s: State, h: History, e: Event, id: Id, task: Task)
    requires id !in s.items && !(e.Register? && e.id == id)
    ensures OnlyDrains(s, h, Next(s, e), Record(h, s, e), id, task)
  {
    match e
    case Handle(c) => GoneHandled(s, h, c, id, task);
    case RunJob(j) => GoneRunJob(s, h, j, id, task);
    case Post(_) =>
    case Stop(_) =>
    case _ =>
  }

  lemma {:induction false} GoneHandled(s: State, h: History, c: Completion, id: Id, task: Task)
    requires id !in s.items
    ensures OnlyDrains(s, h, Handled(s, c), Record(h, s, Handle(c)), id, task)
  {
  }

  lemma {:induction false} GoneRunJob(s: State, h: History, j: Job, id: Id, task: Task)
    requires id !in s.items
    ensures OnlyDrains(s, h, Next(s, RunJob(j)), Record(h, s, RunJob(j)), id, task)
  {
  }

  // Once an id has no item, nothing but a new registration of it posts its
  // task again, and its leftover completions can only drain away.
  lemma {:induction false} GoneStaysGone(s: State, es: seq<Event>, id: Id, task: Task)
    requires id !in s.items && NotRedrawn(es, id)
    ensures id !in After(s, es).items
    ensures Tokens(After(s, es), id) <= Tokens(s, id)
    ensures JobsOf(After(s, es).jobs, id, task) + JobsOf(HistoryOf(s, es).ran, id, task) == JobsOf(s.jobs, id, task)
    ensures JobsOf(HistoryOf(s, es).posted, id, task) == 0
  {
    if es != [] {
      var init, e := es[..|es| - 1], es[|es| - 1];
      GoneStaysGone(s, init, id, task);
      GoneStep(After(s, init), HistoryOf(s, init), e, id, task);
      TokenConservation(After(s, init), e, id);
    }
  }

  // A handler run for an id without an item changes nothing but its own token.
  lemma {:induction false} StaleCompletionIsNoOp(s: State, c: Completion)
    requires c.id !in s.items && c in s.completions && !s.stopped
    ensures Next(s, Handle(c)) == s.(completions := s.completions - multiset{c})
  {
  }

  // s and t differ at most in the completions of `id`, which has no item; x is
  // the completion looked at.
  predicate AgreeAt(s: State, t: State, id: Id, x: Completion) {
    && id !in s.items
    && t.now == s.now && t.items == s.items && t.jobs == s.jobs && t.stopped == s.stopped
    && (x.id != id ==> t.completions[x] == s.completions[x])
  }

  ghost predicate AgreeBut(s: State, t: State, id: Id) {
    forall x: Completion :: AgreeAt(s, t, id, x)
  }

  lemma {:induction false} CountHandled(s: State, d: Completion, x: Completion)
    requires !s.stopped && d in s.completions
    ensures Handled(s, d).completions[x] ==
            s.completions[x] - (if x == d then 1 else 0)
            + if d.id in s.items then Aborted(s.items[d.id], d.id)[x] else 0
  {
  }

  lemma {:induction false} AgreeHandled(s: State, t: State, id: Id, d: Completion, x: Completion)
    requires AgreeAt(s, t, id, d) && AgreeAt(s, t, id, x)
    ensures AgreeAt(Handled(s, d), Handled(t, d), id, x)
  {
    if !s.stopped && d in s.completions {
      CountHandled(s, d, x);
    }
    if !t.stopped && d in t.completions {
      CountHandled(t, d, x);
    }
  }

  lemma {:induction false} AgreeOther(s: State, t: State, id: Id, e: Event, x: Completion)
    requires AgreeAt(s, t, id, x) && !e.Handle? && !(e.Register? && e.id == id)
    ensures AgreeAt(Next(s, e), Next(t, e), id, x)
  {
    match e
    case Register(k, period, task) => AgreeRegistered(s, t, id, k, period, task, x);
    case Fire(k) => AgreeFired(s, t, id, k, x);
    case Stop(k) => AgreeStopped(s, t, id, k, x);
    case CancelTimer(k) => AgreeCancelled(s, t, id, k, x);
    case Clear => AgreeCleared(s, t, id, x);
    case Advance(_) =>
    case RunJob(_) =>
    case Post(_) =>
    case StopService =>
  }

  lemma {:induction false} AgreeRegistered(s: State, t: State, id: Id, k: Id, period: int, task: Task, x: Completion)
    requires AgreeAt(s, t, id, x) && k != id
    ensures AgreeAt(Registered(s, k, period, task), Registered(t, k, period, task), id, x)
  {
  }

  lemma {:induction false} AgreeFired(s: State, t: State, id: Id, k: Id, x: Completion)
    requires AgreeAt(s, t, id, x)
    ensures AgreeAt(Fired(s, k), Fired(t, k), id, x)
  {
  }

  lemma {:induction false} AgreeCleared(s: State, t: State, id: Id, x: Completion)
    requires AgreeAt(s, t, id, x)
    ensures AgreeAt(Cleared(s), Cleared(t), id, x)
  {
  }

  lemma {:induction false} AgreeStopped(s: State, t: State, id: Id, k: Id, x: Completion)
    requires AgreeAt(s, t, id, x)
    ensures AgreeAt(Stopped(s, k), Stopped(t, k), id, x)
  {
  }

  lemma {:induction false} AgreeCancelled(s: State, t: State, id: Id, k: Id, x: Completion)
    requires AgreeAt(s, t, id, x)
    ensures AgreeAt(Cancelled(s, k), Cancelled(t, k), id, x)
  {
  }

  lemma {:induction false} AgreeNext(s: State, t: State, id: Id, e: Event)
    requires AgreeBut(s, t, id) && !(e.Register? && e.id == id)
    ensures AgreeBut(Next(s, e), Next(t, e), id)
  {
    forall x: Completion
      ensures AgreeAt(Next(s, e), Next(t, e), id, x)
    {
      assert AgreeAt(s, t, id, x);
      if e.Handle? {
        assert AgreeAt(s, t, id, e.completion);
        AgreeHandled(s, t, id, e.completion, x);
      } else {
        AgreeOther(s, t, id, e, x);
      }
    }
  }

  lemma {:induction false} AgreeRecord(s: State, t: State, h: History, id: Id, e: Event)
    requires AgreeBut(s, t, id)
    ensures Record(h, t, e) == Record(h, s, e)
  {
    assert AgreeAt(s, t, id, if e.Handle? then e.completion else Completion(id, true));
  }

  lemma {:induction false} AgreeOnRun(s: State, t: State, es: seq<Event>, id: Id)
    requires AgreeBut(s, t, id) && NotRedrawn(es, id)
    ensures AgreeBut(After(s, es), After(t, es), id)
    ensures HistoryOf(t, es) == HistoryOf(s, es)
  {
    if es != [] {
      var init, e := es[..|es| - 1], es[|es| - 1];
      AgreeOnRun(s, t, init, id);
      AgreeRecord(After(s, init), After(t, init), HistoryOf(s, init), id, e);
      AgreeNext(After(s, init), After(t, init), id, e);
    }
  }

  // Until the id is drawn again, whether the handler of a stale completion has
  // run makes no difference to anything that happens afterwards: same items,
  // same jobs, same posts, same completions of all other ids.
  lemma {:induction false} StaleCompletionUnseen(s: State, c: Completion, es: seq<Event>)
    requires c.id !in s.items && c in s.completions && !s.stopped && NotRedrawn(es, c.id)
    ensures AgreeBut(After(s, es), After(Next(s, Handle(c)), es), c.id)
    ensures HistoryOf(Next(s, Handle(c)), es) == HistoryOf(s, es)
  {
    var t := Next(s, Handle(c));
    StaleCompletionIsNoOp(s, c);
    assert AgreeBut(s, t, c.id);
    AgreeOnRun(s, t, es, c.id);
  }

  // When the id is drawn again it does make a difference: a stale completion
  // still queued then posts the task of the new registration at once.
  lemma {:induction false} RedrawRevives(s: State, c: Completion, period: int, task: Task)
    requires c.id !in s.items && s.completions[c] == 1 && !s.stopped
    ensures var es := [Register(c.id, period, task), Handle(c)];
            && HistoryOf(s, es).posted == multiset{Job(Some(c.id), task)}
            && HistoryOf(Next(s, Handle(c)), es).posted == multiset{}
            && After(s, es).now == s.now
  {
    var r, es := Register(c.id, period, task), [Register(c.id, period, task), Handle(c)];
    var t := Next(s, Handle(c));
    assert c in Next(s, r).completions && c !in Next(t, r).completions;
    TwoEvents(s, r, Handle(c));
    TwoEvents(t, r, Handle(c));
  }

  lemma {:induction false} TwoEvents(s: State, d: Event, e: Event)
    ensures After(s, [d, e]) == Next(Next(s, d), e)
    ensures HistoryOf(s, [d, e]) ==
            Record(Record(History(map[], multiset{}, multiset{}), s, d), Next(s, d), e)
  {
    assert [d, e][..1] == [d] && [d][..0] == [];
    assert After(s, [d]) == Next(s, d);
    assert HistoryOf(s, [d]) == Record(HistoryOf(s, []), s, d);
  }

  // From t on, over the events es, the task of `id` is posted no more and runs
  // at most as often as it was queued in s.
  ghost predicate Final(s: State, t: State, es: seq<Event>, id: Id, task: Task) {
    && JobsOf(HistoryOf(t, es).posted, id, task) == 0
    && JobsOf(HistoryOf(t, es).ran, id, task) <= JobsOf(s.jobs, id, task)
  }

  lemma {:induction false} FinalFrom(s: State, t: State, es: seq<Event>, id: Id, task: Task)
    requires id !in t.items && t.jobs == s.jobs && NotRedrawn(es, id)
    ensures Final(s, t, es, id, task)
  {
    GoneStaysGone(t, es, id, task);
  }

  // After stop_cyclic(id), whatever happens next.
  lemma {:induction false} StopIsFinal(s: State, es: seq<Event>, id: Id, task: Task)
    requires NotRedrawn(es, id)
    ensures Final(s, Stopped(s, id), es, id, task)
  {
    var t := Stopped(s, id);
    FinalFrom(s, t, es, id, task);
  }

  // The same for every id once shutdown has cleared the items.
  lemma {:induction false} ClearIsFinal(s: State, es: seq<Event>, id: Id, task: Task)
    requires NotRedrawn(es, id)
    ensures Final(s, Cleared(s), es, id, task)
  {
    var t := Cleared(s);
    FinalFrom(s, t, es, id, task);
  }

  lemma {:induction false} JobConservationStep(s: State, h: History, e: Event)
    requires h.posted == s.jobs + h.ran
    ensures Record(h, s, e).posted == Next(s, e).jobs + Record(h, s, e).ran
  {
    match e
    case Handle(c) => JobsHandled(s, h, c);
    case RunJob(j) =>
    case Post(_) =>
    case _ =>
  }

  lemma {:induction false} JobsHandled(s: State, h: History, c: Completion)
    requires h.posted == s.jobs + h.ran
    ensures Record(h, s, Handle(c)).posted == Handled(s, c).jobs + Record(h, s, Handle(c)).ran
  {
  }

  // Every posted function object is run once or still queued.
  lemma {:induction false} JobConservation(now: int, es: seq<Event>)
    ensures HistoryOf(Initial(now), es).posted == After(Initial(now), es).jobs + HistoryOf(Initial(now), es).ran
  {
    if es != [] {
      var init := es[..|es| - 1];
      JobConservation(now, init);
      JobConservationStep(After(Initial(now), init), HistoryOf(Initial(now), init), es[|es| - 1]);
    }
  }

  // A stopped io_service runs nothing and no handler posts.
  lemma {:induction false} StoppedServiceIsSilent(s: State, es: seq<Event>, id: Id, task: Task)
    requires s.stopped
    ensures After(s, es).stopped && HistoryOf(s, es).ran == multiset{}
    ensures JobsOf(HistoryOf(s, es).posted, id, task) == 0
  {
    if es != [] {
      var init := es[..|es| - 1];
      StoppedServiceIsSilent(s, init, id, task);
      StoppedStep(After(s, init), HistoryOf(s, init), es[|es| - 1], id, task);
    }
  }

  lemma {:induction false} StoppedStep(s: State, h: History, e: Event, id: Id, task: Task)
    requires s.stopped
    ensures Next(s, e).stopped && Record(h, s, e).ran == h.ran
    ensures JobsOf(Record(h, s, e).posted, id, task) == JobsOf(h.posted, id, task)
  {
    match e
    case Handle(_) =>
    case Post(_) =>
    case _ =>
  }
}
