// The retry automaton as the bridge uses it for one device, together with the
// last text sent to the device's status topic.
module Watchdog {
  import opened Common
  import Retry

  datatype Status = Unset | Okay | Error

  datatype Watch = Watch(block: Retry.Block, status: Status)

  // Check: processDeviceList at that time. Message: the device's input topic
  // was updated; `throws` says whether a field of the message made stoi throw.
  datatype Signal = Check(now: int) | Message(now: int, throws: bool)

  function ToEvent(p: Retry.Policy, s: Signal): Retry.Event {
    match s
    case Check(now) => Retry.Check(now)
    case Message(now, _) => Retry.Contact(Some(now + p.wait))
  }

  function Step(p: Retry.Policy, w: Watch, s: Signal): Watch {
    var e := ToEvent(p, s);
    Watch(Retry.Step(p, w.block, e),
          match s
          case Check(_) => if Retry.Act(p, w.block, e) == Retry.Exhausted then Error else w.status
          case Message(_, throws) => if throws then w.status else Okay)
  }

  function After(p: Retry.Policy, w: Watch, ss: seq<Signal>): Watch {
    if ss == [] then w else Step(p, After(p, w, ss[..|ss| - 1]), ss[|ss| - 1])
  }

  ghost predicate Coupled(p: Retry.Policy, w: Watch) {
    w.status == Error <==> w.block.spent > p.limit
  }

  // The two signals after which counter and status disagree: the increment
  // that wraps the counter, and a throwing message while "error" is shown.
  predicate Breaks(w: Watch, s: Signal) {
    match s
    case Check(now) => now > w.block.deadline && w.block.spent == TWO32 - 1
    case Message(_, throws) => throws && w.status == Error
  }

  lemma {:induction false} CouplingStep(p: Retry.Policy, w: Watch, s: Signal)
    requires Coupled(p, w)
    ensures Coupled(p, Step(p, w, s)) <==> !Breaks(w, s)
  {
    if s.Check? && s.now > w.block.deadline && w.block.spent == TWO32 - 1 {
      assert Step(p, w, s).block.spent == 0;
    }
  }

  ghost predicate CoupledUpTo(p: Retry.Policy, w: Watch, ss: seq<Signal>, n: nat)
    requires n <= |ss|
  {
    forall k :: 0 <= k <= n ==> Coupled(p, After(p, w, ss[..k]))
  }

  ghost predicate IntactUpTo(p: Retry.Policy, w: Watch, ss: seq<Signal>, n: nat)
    requires n <= |ss|
  {
    forall i :: 0 <= i < n ==> !Breaks(After(p, w, ss[..i]), ss[i])
  }

  // Over every interleaving of checks and messages: the status is "error"
  // exactly while the counter exceeds the bound, at every point of the run, if
  // and only if no signal of the run is one of the two breaking ones.
  lemma {:induction false} CouplingExact(p: Retry.Policy, w: Watch, ss: seq<Signal>, n: nat)
    requires Coupled(p, w) && n <= |ss|
    ensures CoupledUpTo(p, w, ss, n) <==> IntactUpTo(p, w, ss, n)
  {
    if n == 0 {
      assert ss[..0] == [];
    } else {
      CouplingExact(p, w, ss, n - 1);
      CouplingAt(p, w, ss, n);
      assert CoupledUpTo(p, w, ss, n) <==> CoupledUpTo(p, w, ss, n - 1) && Coupled(p, After(p, w, ss[..n]));
      assert IntactUpTo(p, w, ss, n) <==> IntactUpTo(p, w, ss, n - 1) && !Breaks(After(p, w, ss[..n - 1]), ss[n - 1]);
    }
  }

  lemma {:induction false} CouplingAt(p: Retry.Policy, w: Watch, ss: seq<Signal>, n: nat)
    requires 0 < n <= |ss|
    ensures Coupled(p, After(p, w, ss[..n - 1])) ==>
              (Coupled(p, After(p, w, ss[..n])) <==> !Breaks(After(p, w, ss[..n - 1]), ss[n - 1]))
  {
    assert ss[..n][..n - 1] == ss[..n - 1];
    if Coupled(p, After(p, w, ss[..n - 1])) {
      CouplingStep(p, After(p, w, ss[..n - 1]), ss[n - 1]);
    }
  }

  // ---------------------------------------------------------------- timing

  function Silence(ts: seq<int>): seq<Signal> {
    seq(|ts|, i requires 0 <= i < |ts| => Check(ts[i]))
  }

  lemma {:induction false} SilenceProjects(p: Retry.Policy, w: Watch, ts: seq<int>, n: nat)
    requires n <= |ts|
    ensures After(p, w, Silence(ts)[..n]).block == Retry.After(p, w.block, Retry.Checks(ts)[..n])
    ensures After(p, w, Silence(ts)[..n]).status ==
            if Retry.Quiet(p, w.block, Retry.Checks(ts), n) then w.status else Error
  {
    if n > 0 {
      SilenceProjects(p, w, ts, n - 1);
      var ss, es := Silence(ts), Retry.Checks(ts);
      assert ss[..n][..n - 1] == ss[..n - 1] && es[..n][..n - 1] == es[..n - 1];
      assert Retry.Quiet(p, w.block, es, n) <==>
             Retry.Quiet(p, w.block, es, n - 1) && Retry.ActionAt(p, w.block, es, n - 1) != Retry.Exhausted;
    }
  }

  // The status `before` is left alone strictly before t0 + (N+1)*(T+1) and is
  // "error" from t0 + (N+1)*(T+gap) on.
  predicate MarkedOnTime(p: Retry.Policy, t0: int, now: int, gap: int, before: Status, status: Status) {
    && (now < t0 + (p.limit + 1) * (p.wait + 1) ==> status == before)
    && (now >= t0 + (p.limit + 1) * (p.wait + gap) ==> status == Error)
  }

  lemma {:induction false} QuietUntil(p: Retry.Policy, t0: int, ts: seq<int>, gap: int)
    requires p.wait >= 0 && Retry.Paced(ts, t0, gap) && ts != []
    requires ts[|ts| - 1] < t0 + (p.limit + 1) * (p.wait + 1)
    ensures Retry.Quiet(p, Retry.Block(0, t0 + p.wait), Retry.Checks(ts), |ts|)
  {
    var b, n, es := Retry.Block(0, t0 + p.wait), |ts|, Retry.Checks(ts);
    forall i | 0 <= i < n
      ensures Retry.ActionAt(p, b, es, i) != Retry.Exhausted
    {
      PacedSorted(ts, t0, gap, i, n - 1);
      if Retry.ActionAt(p, b, es, i) == Retry.Exhausted {
        Retry.NotReportedEarly(p, t0, es, i);
      }
    }
  }

  lemma {:induction false} NotQuietFrom(p: Retry.Policy, t0: int, ts: seq<int>, gap: int)
    requires p.wait >= 0 && gap >= 1 && Retry.Paced(ts, t0, gap) && ts != []
    requires ts[|ts| - 1] >= t0 + (p.limit + 1) * (p.wait + gap)
    ensures !Retry.Quiet(p, Retry.Block(0, t0 + p.wait), Retry.Checks(ts), |ts|)
  {
    Retry.ReportedInTime(p, t0, ts, gap);
  }

  // A device last heard at t0, with the watchdog running at least every `gap`
  // milliseconds.
  lemma {:induction false} SilentDeviceMarked(p: Retry.Policy, t0: int, shown: Status, ts: seq<int>, gap: int)
    requires p.wait >= 0 && gap >= 1 && Retry.Paced(ts, t0, gap) && ts != []
    ensures MarkedOnTime(p, t0, ts[|ts| - 1], gap, shown,
                         After(p, Watch(Retry.Block(0, t0 + p.wait), shown), Silence(ts)).status)
  {
    var n := |ts|;
    assert Silence(ts)[..n] == Silence(ts);
    SilenceProjects(p, Watch(Retry.Block(0, t0 + p.wait), shown), ts, n);
    if ts[n - 1] < t0 + (p.limit + 1) * (p.wait + 1) {
      QuietUntil(p, t0, ts, gap);
    }
    if ts[n - 1] >= t0 + (p.limit + 1) * (p.wait + gap) {
      NotQuietFrom(p, t0, ts, gap);
    }
  }

  lemma {:induction false} PacedSorted(ts: seq<int>, t0: int, gap: int, i: nat, j: nat)
    requires Retry.Paced(ts, t0, gap) && i <= j < |ts|
    ensures ts[i] <= ts[j]
  {
    if i < j {
      PacedSorted(ts, t0, gap, i, j - 1);
      assert ts[j - 1] <= ts[j];
    }
  }
}
