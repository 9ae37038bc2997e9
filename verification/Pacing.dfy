// The watchdog under the executor: how far apart the runs of a cyclic task are,
// and what that means for a silent device.
module Pacing {
  import opened Common
  import opened CyclicTimers
  import BridgeModel
  import DeviceTable
  import Retry
  import Watchdog

  predicate RunsTask(s: State, e: Event, id: Id, task: Task) {
    e == RunJob(Job(Some(id), task)) && !s.stopped && e.job in s.jobs
  }

  // The times at which the cyclic task of `id` ran.
  function RunsOf(s: State, es: seq<Event>, id: Id, task: Task): seq<int> {
    if es == [] then []
    else
      var init, e := es[..|es| - 1], es[|es| - 1];
      RunsOf(s, init, id, task) + if RunsTask(After(s, init), e, id, task) then [After(s, init).now] else []
  }

  function Registrations(es: seq<Event>, id: Id): nat {
    if es == [] then 0
    else
      var e := es[|es| - 1];
      Registrations(es[..|es| - 1], id) + if e.Register? && e.id == id then 1 else 0
  }

  // ---------------------------------------------------------------- counting

  lemma {:induction false} UnregisteredIsUnknown(now: int, es: seq<Event>, id: Id)
    requires Registrations(es, id) == 0
    ensures id !in HistoryOf(Initial(now), es).lives && id !in After(Initial(now), es).items
  {
    if es != [] {
      var init, e := es[..|es| - 1], es[|es| - 1];
      UnregisteredIsUnknown(now, init, id);
      StaysUnknown(After(Initial(now), init), HistoryOf(Initial(now), init), e, id);
    }
  }

  lemma {:induction false} StaysUnknown(s: State, h: History, e: Event, id: Id)
    requires id !in h.lives && id !in s.items && !(e.Register? && e.id == id)
    ensures id !in Record(h, s, e).lives && id !in Next(s, e).items
  {
  }

  // No more jobs were posted for the id than its life has posts.
  ghost predicate PostedWithin(h: History, id: Id, task: Task) {
    JobsOf(h.posted, id, task) <= if id in h.lives then |h.lives[id].posts| else 0
  }

  lemma {:induction false} PostedWithinStep(s: State, h: History, e: Event, id: Id, task: Task)
    requires PostedWithin(h, id, task) && OnSchedule(s, h, id)
    requires e.Register? && e.id == id ==> id !in h.lives
    ensures PostedWithin(Record(h, s, e), id, task)
  {
    match e
    case Handle(c) => PostedWithinHandled(s, h, c, id, task);
    case Post(_) =>
    case Register(_, _, _) =>
    case _ => assert Record(h, s, e).lives == h.lives && Record(h, s, e).posted == h.posted;
  }

  lemma {:induction false} PostedWithinHandled(s: State, h: History, c: Completion, id: Id, task: Task)
    requires PostedWithin(h, id, task) && OnSchedule(s, h, id)
    ensures PostedWithin(Record(h, s, Handle(c)), id, task)
  {
  }

  lemma {:induction false} PostedWithinRun(now: int, es: seq<Event>, id: Id, task: Task)
    requires Registrations(es, id) <= 1
    ensures PostedWithin(HistoryOf(Initial(now), es), id, task)
  {
    if es != [] {
      var init, e := es[..|es| - 1], es[|es| - 1];
      PostedWithinRun(now, init, id, task);
      NoDrift(now, init);
      if e.Register? && e.id == id {
        UnregisteredIsUnknown(now, init, id);
      }
      PostedWithinStep(After(Initial(now), init), HistoryOf(Initial(now), init), e, id, task);
    }
  }

  lemma {:induction false} RunsAreCounted(now: int, es: seq<Event>, id: Id, task: Task)
    ensures |RunsOf(Initial(now), es, id, task)| == JobsOf(HistoryOf(Initial(now), es).ran, id, task)
  {
    if es != [] {
      var init, e := es[..|es| - 1], es[|es| - 1];
      RunsAreCounted(now, init, id, task);
      RanStep(After(Initial(now), init), HistoryOf(Initial(now), init), e, id, task);
    }
  }

  lemma {:induction false} RanStep(s: State, h: History, e: Event, id: Id, task: Task)
    ensures JobsOf(Record(h, s, e).ran, id, task) ==
            JobsOf(h.ran, id, task) + if RunsTask(s, e, id, task) then 1 else 0
  {
  }

  // ---------------------------------------------------------------- times

  // Run number j comes after post number j, and runs are in clock order.
  ghost predicate Follows(runs: seq<int>, posts: seq<int>, now: int) {
    && |runs| <= |posts|
    && (forall j :: 0 <= j < |runs| ==> posts[j] <= runs[j] <= now)
    && (forall j :: 0 < j < |runs| ==> runs[j - 1] <= runs[j])
  }

  function PostsOf(h: History, id: Id): seq<int> {
    if id in h.lives then h.lives[id].posts else []
  }

  lemma {:induction false} PostsGrow(s: State, h: History, e: Event, id: Id)
    requires e.Register? && e.id == id ==> id !in h.lives
    ensures PostsOf(h, id) <= PostsOf(Record(h, s, e), id) && s.now <= Next(s, e).now
    ensures e.RunJob? ==> PostsOf(Record(h, s, e), id) == PostsOf(h, id)
  {
  }

  lemma {:induction false} FollowsLater(runs: seq<int>, posts: seq<int>, now: int, more: seq<int>, later: int)
    requires Follows(runs, posts, now) && posts <= more && now <= later
    ensures Follows(runs, more, later)
  {
  }

  lemma {:induction false} FollowsRun(runs: seq<int>, posts: seq<int>, now: int)
    requires Follows(runs, posts, now) && |runs| < |posts| && posts[|runs|] <= now
    ensures Follows(runs + [now], posts, now)
  {
  }

  lemma {:induction false} RunsFollow(now: int, es: seq<Event>, id: Id, task: Task)
    requires Registrations(es, id) <= 1
    ensures Follows(RunsOf(Initial(now), es, id, task), PostsOf(HistoryOf(Initial(now), es), id),
                    After(Initial(now), es).now)
  {
    if es != [] {
      var init, e := es[..|es| - 1], es[|es| - 1];
      var s, h, runs := After(Initial(now), init), HistoryOf(Initial(now), init), RunsOf(Initial(now), init, id, task);
      RunsFollow(now, init, id, task);
      if e.Register? && e.id == id {
        UnregisteredIsUnknown(now, init, id);
      }
      PostsGrow(s, h, e, id);
      if RunsTask(s, e, id, task) {
        PostIsAhead(now, init, id, task);
        FollowsRun(runs, PostsOf(h, id), s.now);
      } else {
        FollowsLater(runs, PostsOf(h, id), s.now, PostsOf(Record(h, s, e), id), Next(s, e).now);
      }
    }
  }

  // A job that is queued was posted, and no later than now.
  lemma {:induction false} PostIsAhead(now: int, es: seq<Event>, id: Id, task: Task)
    requires Registrations(es, id) <= 1 && Job(Some(id), task) in After(Initial(now), es).jobs
    ensures var runs, posts := RunsOf(Initial(now), es, id, task), PostsOf(HistoryOf(Initial(now), es), id);
            |runs| < |posts| && posts[|runs|] <= After(Initial(now), es).now
  {
    var s, h := After(Initial(now), es), HistoryOf(Initial(now), es);
    JobConservation(now, es);
    RunsAreCounted(now, es, id, task);
    PostedWithinRun(now, es, id, task);
    PostsOrdered(now, es, id);
    assert JobsOf(h.posted, id, task) == JobsOf(s.jobs, id, task) + JobsOf(h.ran, id, task);
  }

  // ---------------------------------------------------------------- pace

  // Every run is at most `late` after its deadline: expiry, handler and job
  // together.
  ghost predicate Prompt(runs: seq<int>, life: Life, late: int) {
    forall j :: 0 <= j < |runs| ==> runs[j] <= life.born + (j + 1) * life.period + late
  }

  lemma {:induction false} PromptIsPaced(runs: seq<int>, life: Life, now: int, late: int)
    requires life.period >= 0 && late >= 0 && OnTime(life) && Follows(runs, life.posts, now) && Prompt(runs, life, late)
    ensures Retry.Paced(runs, life.born, life.period + late)
  {
    forall j | 0 <= j < |runs|
      ensures Retry.Previous(runs, life.born, j) <= runs[j] <= Retry.Previous(runs, life.born, j) + life.period + late
    {
      Distribute(j, life.period);
      assert life.born + (j + 1) * life.period <= life.posts[j] <= runs[j];
      if j > 0 {
        assert life.born + (j - 1 + 1) * life.period <= life.posts[j - 1] <= runs[j - 1];
      }
    }
  }

  // On every fresh run with one registration of the id and no premature handler
  // run: if no run of its task is more than `late` late, then the runs are at
  // most period + late apart, the first one counted from the registration.
  lemma {:induction false} RunsPaced(now: int, es: seq<Event>, id: Id, task: Task, late: int)
    requires FreshRun(Initial(now), es) && NeverPremature(Initial(now), es, id) && Registrations(es, id) <= 1
    requires id in HistoryOf(Initial(now), es).lives && late >= 0
    requires var life := HistoryOf(Initial(now), es).lives[id];
             life.period >= 0 && Prompt(RunsOf(Initial(now), es, id, task), life, late)
    ensures var life := HistoryOf(Initial(now), es).lives[id];
            Retry.Paced(RunsOf(Initial(now), es, id, task), life.born, life.period + late)
  {
    OnTimeExact(now, es, id);
    RunsFollow(now, es, id, task);
    PromptIsPaced(RunsOf(Initial(now), es, id, task), HistoryOf(Initial(now), es).lives[id],
                  After(Initial(now), es).now, late);
  }

  // The same from any moment between two runs on.
  lemma {:induction false} PacedFrom(ts: seq<int>, born: int, gap: int, a: nat, t0: int)
    requires Retry.Paced(ts, born, gap) && a < |ts| && Retry.Previous(ts, born, a) <= t0 <= ts[a]
    ensures Retry.Paced(ts[a..], t0, gap)
  {
    forall k | 0 <= k < |ts| - a
      ensures Retry.Previous(ts[a..], t0, k) <= ts[a..][k] <= Retry.Previous(ts[a..], t0, k) + gap
    {
      assert Retry.Previous(ts, born, a + k) <= ts[a + k] <= Retry.Previous(ts, born, a + k) + gap;
    }
  }

  lemma {:induction false} SilenceUnderPace(
    table: seq<DeviceTable.Device>, i: nat, s: BridgeModel.System, es: seq<BridgeModel.Event>,
    ts: seq<int>, born: int, gap: int, a: nat, t0: int)
    requires DeviceTable.DistinctNames(table) && BridgeModel.Fits(table, s) && i < |table|
    requires BridgeModel.AllProper(table, es)
    requires gap >= 1 && Retry.Paced(ts, born, gap) && a < |ts| && Retry.Previous(ts, born, a) <= t0 <= ts[a]
    requires s.blocks[table[i].devName] == Retry.Block(0, t0 + 1000 * table[i].nodeTimeoutInSec)
    requires BridgeModel.SignalsOf(table, i, s, es) == Watchdog.Silence(ts[a..])
    ensures BridgeModel.MarkedInTime(table[i], t0, ts[|ts| - 1], gap, s.shown[table[i].devName],
                                     BridgeModel.After(table, s, es).shown[table[i].devName])
  {
    PacedFrom(ts, born, gap, a, t0);
    var us := ts[a..];
    assert us != [] && us[|us| - 1] == ts[|ts| - 1];
    BridgeModel.SilenceIsMarked(table, i, s, es, t0, us, gap);
  }

  // A run of the executor in which the id lives, was drawn once and fresh, and
  // its task ran at the times `runs`, none premature and none more than `late`
  // late.
  ghost predicate PromptLife(now: int, es: seq<Event>, id: Id, task: Task, late: int, life: Life, runs: seq<int>) {
    && FreshRun(Initial(now), es) && NeverPremature(Initial(now), es, id) && Registrations(es, id) <= 1
    && id in HistoryOf(Initial(now), es).lives && life == HistoryOf(Initial(now), es).lives[id]
    && runs == RunsOf(Initial(now), es, id, task)
    && life.period >= 1 && late >= 0 && Prompt(runs, life, late)
  }

  lemma {:induction false} PromptLifePaced(now: int, es: seq<Event>, id: Id, task: Task, late: int, life: Life,
                                           runs: seq<int>, gap: int)
    requires PromptLife(now, es, id, task, late, life, runs) && gap == life.period + late
    ensures gap >= 1 && Retry.Paced(runs, life.born, gap)
  {
    RunsPaced(now, es, id, task, late);
  }

  // The runs of the watchdog's cyclic task in the executor are the ticks of the
  // bridge. A device last heard at t0, between two of them, and silent from
  // then on while the rest of the system runs: with runs at most `late` late,
  // its status is left alone before t0 + (N+1)*(T+1) and is "error" from
  // t0 + (N+1)*(T + gap) on, where gap is period + late.
  lemma {:induction false} SilenceUnderExecutor(
    now: int, xs: seq<Event>, id: Id, task: Task, late: int, life: Life, runs: seq<int>, gap: int,
    table: seq<DeviceTable.Device>, i: nat, s: BridgeModel.System, es: seq<BridgeModel.Event>, a: nat, t0: int)
    requires PromptLife(now, xs, id, task, late, life, runs) && gap == life.period + late
    requires a < |runs| && Retry.Previous(runs, life.born, a) <= t0 <= runs[a]
    requires DeviceTable.DistinctNames(table) && BridgeModel.Fits(table, s) && i < |table|
    requires BridgeModel.AllProper(table, es)
    requires s.blocks[table[i].devName] == Retry.Block(0, t0 + 1000 * table[i].nodeTimeoutInSec)
    requires BridgeModel.SignalsOf(table, i, s, es) == Watchdog.Silence(runs[a..])
    ensures var dev, last := table[i], runs[|runs| - 1];
            var status := BridgeModel.After(table, s, es).shown[dev.devName];
            && (last < t0 + (dev.nodeConnectionAttempt + 1) * (1000 * dev.nodeTimeoutInSec + 1) ==>
                  status == s.shown[dev.devName])
            && (last >= t0 + (dev.nodeConnectionAttempt + 1) * (1000 * dev.nodeTimeoutInSec + gap) ==>
                  status == Watchdog.Error)
  {
    PromptLifePaced(now, xs, id, task, late, life, runs, gap);
    SilenceUnderPace(table, i, s, es, runs, life.born, gap, a, t0);
  }
}
