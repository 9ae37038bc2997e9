// Error reports on their way to the launcher: the queue, FinalHaven, and the
// exit loop as a function of what arrives during each pop.
module ErrorPipeline {
  import opened Common

  datatype ErrorLevel = UserLevel | CriticalLevel | SystemLevel | ComponentLevel

  datatype HbeError = HbeError(level: ErrorLevel, description: string)

  // The levels on which the launcher leaves its loop.
  predicate Fatal(e: HbeError) {
    e.level == UserLevel || e.level == CriticalLevel
  }

  // script[i] is what is reported up to the end of the i-th pop; an empty one
  // on an empty queue is a pop that times out.
  type Script = seq<seq<HbeError>>

  function Concat(script: Script): seq<HbeError> {
    if script == [] then [] else script[0] + Concat(script[1..])
  }

  datatype Served = Served(handled: seq<HbeError>, queue: seq<HbeError>, exited: bool)

  function Handling(e: HbeError, s: Served): Served {
    s.(handled := [e] + s.handled)
  }

  // The exit loop over these pops, from a queue.
  function Serve(queue: seq<HbeError>, script: Script): Served
    decreases script
  {
    if script == [] then Served([], queue, false)
    else
      var q := queue + script[0];
      if q == [] then Serve([], script[1..])
      else if Fatal(q[0]) then Served([q[0]], q[1..], true)
      else Handling(q[0], Serve(q[1..], script[1..]))
  }

  // Reports up to and including the first fatal one; all of them if none is.
  function ThroughFatal(all: seq<HbeError>): seq<HbeError> {
    if all == [] then []
    else
      [all[0]]
      + if all[0].level == UserLevel || all[0].level == CriticalLevel then [] else ThroughFatal(all[1..])
  }

  ghost predicate SomeFatal(all: seq<HbeError>) {
    exists i :: 0 <= i < |all| && (all[i].level == UserLevel || all[i].level == CriticalLevel)
  }

  // For every sequence of reports and every pattern of timeouts: the loop has
  // ended exactly when it handled a fatal report, it handled exactly the
  // reports through the first fatal one; before that, what it handled and what
  // is queued are together all that was reported, in order, each once.
  lemma {:induction false} ServeExact(queue: seq<HbeError>, script: Script)
    ensures Exact(Serve(queue, script), queue + Concat(script))
    decreases script
  {
    if script == [] {
      assert queue + Concat(script) == queue;
    } else {
      var q, rest := queue + script[0], Concat(script[1..]);
      assert queue + Concat(script) == q + rest;
      if q == [] {
        ServeExact([], script[1..]);
        assert q + rest == [] + rest;
      } else if Fatal(q[0]) {
        assert (q + rest)[0] == q[0];
        assert [q[0]][0] == q[0] && (q + rest)[0] == q[0];
        assert SomeFatal([q[0]]) && SomeFatal(q + rest);
      } else {
        ServeExact(q[1..], script[1..]);
        ServeStep(q[0], q[1..] + rest, Serve(q[1..], script[1..]));
        assert [q[0]] + (q[1..] + rest) == q + rest;
      }
    }
  }

  // r is what the loop makes of the reports `all`.
  ghost predicate Exact(r: Served, all: seq<HbeError>) {
    && (r.exited <==> SomeFatal(r.handled))
    && (r.exited ==> SomeFatal(all) && r.handled == ThroughFatal(all))
    && (!r.exited ==> r.handled + r.queue == all)
    && r.handled <= ThroughFatal(all)
  }

  lemma {:induction false} ServeStep(e: HbeError, tail: seq<HbeError>, s: Served)
    requires !Fatal(e) && Exact(s, tail)
    ensures Exact(Handling(e, s), [e] + tail)
  {
    SomeFatalCons(e, s.handled);
    SomeFatalCons(e, tail);
    ThroughFatalCons(e, tail);
    PrefixCons(e, s.handled, ThroughFatal(tail));
    assert [e] + s.handled + s.queue == [e] + (s.handled + s.queue);
  }

  lemma {:induction false} ThroughFatalCons(e: HbeError, tail: seq<HbeError>)
    requires !Fatal(e)
    ensures ThroughFatal([e] + tail) == [e] + ThroughFatal(tail)
  {
    assert ([e] + tail)[1..] == tail;
  }

  lemma {:induction false} PrefixCons(e: HbeError, a: seq<HbeError>, b: seq<HbeError>)
    requires a <= b
    ensures [e] + a <= [e] + b
  {
  }

  lemma {:induction false} SomeFatalCons(e: HbeError, s: seq<HbeError>)
    ensures SomeFatal([e] + s) <==> Fatal(e) || SomeFatal(s)
  {
    var all := [e] + s;
    assert all[0] == e;
    if SomeFatal(s) {
      var i :| 0 <= i < |s| && (s[i].level == UserLevel || s[i].level == CriticalLevel);
      assert all[i + 1] == s[i];
    }
    if SomeFatal(all) {
      var i :| 0 <= i < |all| && (all[i].level == UserLevel || all[i].level == CriticalLevel);
      if i > 0 {
        assert s[i - 1] == all[i];
      }
    }
  }

  lemma {:induction false} ThroughFatalAll(all: seq<HbeError>)
    ensures !SomeFatal(all) ==> ThroughFatal(all) == all
  {
    if all != [] {
      assert all == [all[0]] + all[1..];
      SomeFatalCons(all[0], all[1..]);
      ThroughFatalAll(all[1..]);
    }
  }

  // With the first report at user_level or critical_level in place i, the
  // reports through it are the first i + 1.
  lemma {:induction false} ThroughFatalAt(all: seq<HbeError>, i: nat)
    requires i < |all| && (all[i].level == UserLevel || all[i].level == CriticalLevel)
    requires forall j :: 0 <= j < i ==> all[j].level == SystemLevel || all[j].level == ComponentLevel
    ensures SomeFatal(all) && ThroughFatal(all) == all[..i + 1]
  {
    if i > 0 {
      ThroughFatalAt(all[1..], i - 1);
      assert all[..i + 1] == [all[0]] + all[1..][..i];
    }
  }

  lemma {:induction false} NoneFatal(all: seq<HbeError>)
    requires forall j :: 0 <= j < |all| ==> all[j].level == SystemLevel || all[j].level == ComponentLevel
    ensures !SomeFatal(all) && ThroughFatal(all) == all
  {
    ThroughFatalAll(all);
  }

  // k more pops during which nothing is reported.
  function Quiet(k: nat): Script {
    if k == 0 then [] else [[]] + Quiet(k - 1)
  }

  // With enough further pops the loop handles exactly the reports through the
  // first fatal one and then ends; without a fatal report it handles them all
  // and keeps waiting.
  lemma {:induction false} ServeCompletes(queue: seq<HbeError>, script: Script, k: nat)
    requires k >= |queue| + |Concat(script)|
    ensures var r, all := Serve(queue, script + Quiet(k)), queue + Concat(script);
            r.handled == ThroughFatal(all) && (r.exited <==> SomeFatal(all))
    decreases |script| + k
  {
    var all := queue + Concat(script);
    ServeExact(queue, script + Quiet(k));
    ConcatQuiet(script, k);
    if !Serve(queue, script + Quiet(k)).exited {
      Drained(queue, script, k);
      ThroughFatalAll(all);
      assert Serve(queue, script + Quiet(k)).handled == all;
    }
  }

  lemma {:induction false} ConcatQuiet(script: Script, k: nat)
    ensures Concat(script + Quiet(k)) == Concat(script)
  {
    if script == [] {
      assert script + Quiet(k) == Quiet(k);
      QuietIsEmpty(k);
    } else {
      ConcatQuiet(script[1..], k);
      assert (script + Quiet(k))[0] == script[0] && (script + Quiet(k))[1..] == script[1..] + Quiet(k);
    }
  }

  lemma {:induction false} QuietIsEmpty(k: nat)
    ensures Concat(Quiet(k)) == []
  {
    if k > 0 {
      QuietIsEmpty(k - 1);
      assert Quiet(k)[1..] == Quiet(k - 1);
    }
  }

  lemma {:induction false} Drained(queue: seq<HbeError>, script: Script, k: nat)
    requires k >= |queue| + |Concat(script)| && !Serve(queue, script + Quiet(k)).exited
    ensures Serve(queue, script + Quiet(k)).queue == []
    decreases |script| + k
  {
    var full := script + Quiet(k);
    if script != [] {
      var q := queue + script[0];
      assert full[0] == script[0] && full[1..] == script[1..] + Quiet(k);
      Drained(if q == [] then [] else q[1..], script[1..], k);
    } else {
      assert full == Quiet(k);
      if k > 0 {
        assert full[0] == [] && full[1..] == Quiet(k - 1) && queue + [] == queue;
        assert [] + Quiet(k - 1) == Quiet(k - 1);
        Drained(if queue == [] then [] else queue[1..], [], k - 1);
      }
    }
  }

  // ---------------------------------------------------------------- objects

  class UniQueue<T> {
    var queue: seq<T>

    constructor ()
      ensures queue == []
    {
      queue := [];
    }

    method Push(m: T)
      modifies this
      ensures queue == old(queue) + [m]
    {
      queue := queue + [m];
    }

    // `arriving` is what other threads push until this call ends: it waits for
    // them, up to its timeout, only when the queue is empty.
    method Pop(arriving: seq<T>) returns (blk: Option<T>)
      modifies this
      ensures var q := old(queue) + arriving;
              if q == [] then blk == None && queue == [] else blk == Some(q[0]) && queue == q[1..]
    {
      blk := None;
      if queue == [] {
        queue := arriving;
        if queue != [] {
          blk := Some(queue[0]);
          queue := queue[1..];
        }
      } else {
        blk := Some(queue[0]);
        queue := queue[1..] + arriving;
      }
    }
  }

  function SignalReport(termination: bool): HbeError {
    HbeError(UserLevel, if termination then "Application termination requested by user" else "Fatal signal obtained")
  }

  class CFinalHaven {
    const errQueue: UniQueue<HbeError>

    constructor ()
      ensures errQueue.queue == [] && fresh(errQueue)
    {
      errQueue := new UniQueue();
    }

    method Report(level: ErrorLevel, description: string)
      modifies errQueue
      ensures errQueue.queue == old(errQueue.queue) + [HbeError(level, description)]
    {
      errQueue.Push(HbeError(level, description));
    }

    // SIGTERM, SIGINT and anything else are one user_level report.
    method SignalHandler(termination: bool)
      modifies errQueue
      ensures errQueue.queue == old(errQueue.queue) + [SignalReport(termination)]
      ensures SignalReport(termination).level == UserLevel
    {
      errQueue.Push(SignalReport(termination));
    }

    // waitAction: pop until a pop yields an item. The script supplies the pops;
    // `next` is how many were used, and None means it ran out first.
    method WaitAction(script: Script, first: nat) returns (action: Option<HbeError>, next: nat)
      requires first <= |script|
      modifies errQueue
      ensures first <= next <= |script|
      ensures action == None ==>
                next == |script| && errQueue.queue == Serve(old(errQueue.queue), script[first..]).queue
                && Serve(old(errQueue.queue), script[first..]) == Served([], errQueue.queue, false)
      ensures action.Some? ==>
                first < next &&
                Serve(old(errQueue.queue), script[first..]) ==
                if Fatal(action.value) then Served([action.value], errQueue.queue, true)
                else Handling(action.value, Serve(errQueue.queue, script[next..]))
    {
      action, next := None, first;
      while action == None && next < |script|
        invariant first <= next <= |script|
        invariant action == None ==>
                  Serve(old(errQueue.queue), script[first..]) == Serve(errQueue.queue, script[next..])
        invariant action.Some? ==>
                    first < next &&
                    Serve(old(errQueue.queue), script[first..]) ==
                    if Fatal(action.value) then Served([action.value], errQueue.queue, true)
                    else Handling(action.value, Serve(errQueue.queue, script[next..]))
        decreases |script| - next
      {
        assert script[next..][1..] == script[next + 1..];
        action := errQueue.Pop(script[next]);
        next := next + 1;
      }
    }
  }
}
