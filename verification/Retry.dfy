// The retry automaton shared by the connection manager and the device
// watchdog: a wrapping 32-bit attempt counter, a deadline and a bound on the
// attempts. Times are milliseconds of the steady clock.
module Retry {
  import opened Common

  datatype Block = Block(spent: Uint32, deadline: int)

  // `limit` attempts are allowed, `wait` is added to the time of each of them.
  datatype Policy = Policy(limit: Uint32, wait: int)

  // Check: the periodic handler looks at the block.
  // Contact: the peer was seen; the watchdog moves the deadline (Some), the
  //          connection manager leaves it where it is (None).
  // Pass: the handler ran but did not look at the block.
  datatype Event = Check(now: int) | Contact(deadline: Option<int>) | Pass

  datatype Action = Idle | Attempt | Exhausted | Silent

  predicate Expired(b: Block, e: Event) {
    e.Check? && e.now > b.deadline
  }

  function Act(p: Policy, b: Block, e: Event): Action {
    if !Expired(b, e) then Idle
    else if b.spent < p.limit then Attempt
    else if b.spent == p.limit then Exhausted
    else Silent
  }

  function Step(p: Policy, b: Block, e: Event): Block {
    match e
    case Pass => b
    case Contact(None) => b.(spent := 0)
    case Contact(Some(d)) => Block(0, d)
    case Check(now) =>
      if now <= b.deadline then b
      else if b.spent < p.limit then Block(b.spent + 1, now + p.wait)
      else b.(spent := (b.spent + 1) % TWO32)
  }

  // The deadline moves on an attempt, to `wait` after it, and on a contact that
  // brings one; everything else, checks at or past the bound included, keeps it.
  lemma {:induction false} DeadlineExact(p: Policy, b: Block, e: Event)
    ensures Step(p, b, e).deadline ==
            if Act(p, b, e) == Attempt then e.now + p.wait
            else if e.Contact? && e.deadline.Some? then e.deadline.value
            else b.deadline
    ensures Act(p, b, e) == Attempt <==> e.Check? && e.now > b.deadline && b.spent < p.limit
    ensures Act(p, b, e) == Exhausted <==> e.Check? && e.now > b.deadline && b.spent == p.limit
  {
  }

  function After(p: Policy, b: Block, es: seq<Event>): Block {
    if es == [] then b
    else Step(p, After(p, b, es[..|es| - 1]), es[|es| - 1])
  }

  // The action taken at event i of the trace.
  function ActionAt(p: Policy, b: Block, es: seq<Event>, i: nat): Action
    requires i < |es|
  {
    Act(p, After(p, b, es[..i]), es[i])
  }

  // Number of checks that found the deadline passed.
  function Expiries(p: Policy, b: Block, es: seq<Event>): nat {
    if es == [] then 0
    else
      var init := es[..|es| - 1];
      Expiries(p, b, init) + if Expired(After(p, b, init), es[|es| - 1]) then 1 else 0
  }

  function CountOf(a: Action, p: Policy, b: Block, es: seq<Event>): nat {
    if es == [] then 0
    else
      var init := es[..|es| - 1];
      CountOf(a, p, b, init) + if Act(p, After(p, b, init), es[|es| - 1]) == a then 1 else 0
  }

  ghost predicate NoContact(es: seq<Event>) {
    forall i :: 0 <= i < |es| ==> !es[i].Contact?
  }

  // ---------------------------------------------------------------- counter

  // The k-th expired check since a reset sees the counter k mod 2^32, however
  // the clock readings behave and whatever the deadlines were.
  lemma {:induction false} CounterClosedForm(p: Policy, b: Block, es: seq<Event>)
    requires NoContact(es)
    ensures After(p, b, es).spent == (b.spent + Expiries(p, b, es)) % TWO32
  {
    if es != [] {
      CounterClosedForm(p, b, es[..|es| - 1]);
    }
  }

  // What an expired check does depends on nothing but its ordinal.
  function ActionOfOrdinal(limit: Uint32, k: nat): Action {
    var c := k % TWO32;
    if c < limit then Attempt else if c == limit then Exhausted else Silent
  }

  lemma {:induction false} ActionClosedForm(p: Policy, b: Block, es: seq<Event>, i: nat)
    requires b.spent == 0 && NoContact(es) && i < |es|
    ensures ActionAt(p, b, es, i) ==
            if Expired(After(p, b, es[..i]), es[i]) then ActionOfOrdinal(p.limit, Expiries(p, b, es[..i]))
            else Idle
  {
    CounterClosedForm(p, b, es[..i]);
  }

  lemma {:induction false} ExpiriesMonotone(p: Policy, b: Block, es: seq<Event>, i: nat, j: nat)
    requires i <= j <= |es|
    ensures Expiries(p, b, es[..i]) <= Expiries(p, b, es[..j])
    ensures i < j && Expired(After(p, b, es[..i]), es[i]) ==> Expiries(p, b, es[..i]) < Expiries(p, b, es[..j])
    decreases j - i
  {
    if i < j {
      assert es[..i + 1][..i] == es[..i];
      ExpiriesMonotone(p, b, es, i + 1, j);
    }
  }

  // Every ordinal below the total is the ordinal of some expired check.
  lemma {:induction false} OrdinalOccurs(p: Policy, b: Block, es: seq<Event>, k: nat) returns (i: nat)
    requires k < Expiries(p, b, es)
    ensures i < |es| && Expiries(p, b, es[..i]) == k && Expired(After(p, b, es[..i]), es[i])
  {
    var init := es[..|es| - 1];
    if k < Expiries(p, b, init) {
      i := OrdinalOccurs(p, b, init, k);
      assert es[..i] == init[..i];
    } else {
      i := |es| - 1;
    }
  }

  // Without a contact, two successive exhaustion reports are exactly 2^32
  // expired checks apart.
  lemma {:induction false} ExhaustionPeriod(p: Policy, b: Block, es: seq<Event>, i: nat, j: nat)
    requires b.spent == 0 && NoContact(es) && i < j < |es|
    requires ActionAt(p, b, es, i) == Exhausted && ActionAt(p, b, es, j) == Exhausted
    requires forall m :: i < m < j ==> ActionAt(p, b, es, m) != Exhausted
    ensures Expiries(p, b, es[..j]) - Expiries(p, b, es[..i]) == TWO32
  {
    var ki, kj := Expiries(p, b, es[..i]), Expiries(p, b, es[..j]);
    ActionClosedForm(p, b, es, i);
    ActionClosedForm(p, b, es, j);
    ExpiriesMonotone(p, b, es, i, j);
    SameResidue(ki, kj);
    if ki + TWO32 < kj {
      var m := OrdinalBetween(p, b, es, i, j, ki + TWO32);
      ActionClosedForm(p, b, es, m);
      assert false;
    }
  }

  lemma {:induction false} SameResidue(k: nat, l: nat)
    requires k % TWO32 == l % TWO32 && k < l
    ensures k + TWO32 <= l && (k + TWO32) % TWO32 == k % TWO32
  {
  }

  lemma {:induction false} OrdinalBetween(p: Policy, b: Block, es: seq<Event>, i: nat, j: nat, k: nat)
    returns (m: nat)
    requires i < j <= |es| && Expiries(p, b, es[..i]) < k < Expiries(p, b, es[..j])
    ensures i < m < j && Expiries(p, b, es[..m]) == k && Expired(After(p, b, es[..m]), es[m])
  {
    m := OrdinalOccurs(p, b, es[..j], k);
    assert es[..j][..m] == es[..m];
    if m <= i {
      ExpiriesMonotone(p, b, es, m, i);
    }
  }

  // ---------------------------------------------------------------- budget

  // How many of the first n expired checks take the action.
  function Among(a: Action, limit: Uint32, n: nat): nat {
    if n == 0 then 0 else Among(a, limit, n - 1) + if ActionOfOrdinal(limit, n - 1) == a then 1 else 0
  }

  lemma {:induction false} AmongClosedForm(limit: Uint32, n: nat)
    ensures Among(Attempt, limit, n) == n / TWO32 * limit + Min(n % TWO32, limit)
    ensures Among(Exhausted, limit, n) == n / TWO32 + if n % TWO32 > limit then 1 else 0
  {
    if n == 0 {
      assert 0 / TWO32 == 0 && 0 % TWO32 == 0;
    } else {
      AmongClosedForm(limit, n - 1);
      LapArithmetic(n - 1, limit);
    }
  }

  lemma {:induction false} CountAmong(a: Action, p: Policy, b: Block, es: seq<Event>)
    requires b.spent == 0 && NoContact(es) && a != Idle
    ensures CountOf(a, p, b, es) == Among(a, p.limit, Expiries(p, b, es))
  {
    if es != [] {
      CountAmong(a, p, b, es[..|es| - 1]);
      ActionClosedForm(p, b, es, |es| - 1);
    }
  }

  // Exact totals for any number of expired checks, wrap-arounds included.
  lemma {:induction false} BudgetClosedForm(p: Policy, b: Block, es: seq<Event>)
    requires b.spent == 0 && NoContact(es)
    ensures var total := Expiries(p, b, es); var laps := total / TWO32; var rest := total % TWO32;
            && CountOf(Attempt, p, b, es) == laps * p.limit + Min(rest, p.limit)
            && CountOf(Exhausted, p, b, es) == laps + if rest > p.limit then 1 else 0
  {
    CountAmong(Attempt, p, b, es);
    CountAmong(Exhausted, p, b, es);
    AmongClosedForm(p.limit, Expiries(p, b, es));
  }

  lemma {:induction false} LapArithmetic(k: nat, limit: Uint32)
    ensures k % TWO32 == TWO32 - 1 ==> (k + 1) / TWO32 == k / TWO32 + 1 && (k + 1) % TWO32 == 0
    ensures k % TWO32 < TWO32 - 1 ==> (k + 1) / TWO32 == k / TWO32 && (k + 1) % TWO32 == k % TWO32 + 1
    ensures (k / TWO32 + 1) * limit == k / TWO32 * limit + limit
  {
  }

  // Before the counter wraps: min(expired, limit) attempts, one report if a
  // further check expires, and no attempt after that report.
  lemma {:induction false} BudgetBeforeWrap(p: Policy, b: Block, es: seq<Event>)
    requires b.spent == 0 && NoContact(es) && Expiries(p, b, es) <= TWO32
    ensures CountOf(Attempt, p, b, es) == Min(Expiries(p, b, es), p.limit)
    ensures CountOf(Exhausted, p, b, es) == if Expiries(p, b, es) > p.limit then 1 else 0
    ensures forall i, j :: 0 <= i < j < |es| && ActionAt(p, b, es, i) == Exhausted ==>
              ActionAt(p, b, es, j) != Attempt
  {
    BudgetClosedForm(p, b, es);
    FirstLap(Expiries(p, b, es), p.limit);
    forall i, j | 0 <= i < j < |es| && ActionAt(p, b, es, i) == Exhausted
      ensures ActionAt(p, b, es, j) != Attempt
    {
      NoAttemptAfterReport(p, b, es, i, j);
    }
  }

  lemma {:induction false} FirstLap(k: nat, limit: Uint32)
    requires k <= TWO32
    ensures k / TWO32 * limit + Min(k % TWO32, limit) == Min(k, limit)
    ensures k / TWO32 + (if k % TWO32 > limit then 1 else 0) == if k > limit then 1 else 0
    ensures k < TWO32 ==> k % TWO32 == k
  {
    if k == TWO32 {
      assert k / TWO32 == 1 && k % TWO32 == 0;
    } else {
      assert k / TWO32 == 0 && k % TWO32 == k;
    }
  }

  lemma {:induction false} NoAttemptAfterReport(p: Policy, b: Block, es: seq<Event>, i: nat, j: nat)
    requires b.spent == 0 && NoContact(es) && Expiries(p, b, es) <= TWO32
    requires i < j < |es| && ActionAt(p, b, es, i) == Exhausted
    ensures ActionAt(p, b, es, j) != Attempt
  {
    ActionClosedForm(p, b, es, i);
    ActionClosedForm(p, b, es, j);
    ExpiriesMonotone(p, b, es, i, j);
    ExpiriesMonotone(p, b, es, j, |es|);
    assert es[..|es|] == es;
    FirstLap(Expiries(p, b, es[..i]), p.limit);
    FirstLap(Expiries(p, b, es[..j]), p.limit);
  }

  // ---------------------------------------------------------------- spacing

  ghost predicate KeepsDeadline(es: seq<Event>) {
    forall i :: 0 <= i < |es| ==> (es[i].Contact? ==> es[i].deadline == None)
  }

  lemma {:induction false} DeadlineMonotone(p: Policy, b: Block, es: seq<Event>, i: nat, j: nat)
    requires p.wait >= 0 && KeepsDeadline(es) && i <= j <= |es|
    ensures After(p, b, es[..i]).deadline <= After(p, b, es[..j]).deadline
    decreases j - i
  {
    if i < j {
      assert es[..i + 1][..i] == es[..i];
      DeadlineMonotone(p, b, es, i + 1, j);
    }
  }

  // Any two attempts are more than `wait` apart, in trace order, even when the
  // clock readings come out of order and resets happen in between.
  lemma {:induction false} AttemptsSpaced(p: Policy, b: Block, es: seq<Event>, i: nat, j: nat)
    requires p.wait >= 0 && KeepsDeadline(es) && i < j < |es|
    requires ActionAt(p, b, es, i) == Attempt && ActionAt(p, b, es, j) == Attempt
    ensures es[j].now > es[i].now + p.wait
  {
    assert es[..i + 1][..i] == es[..i];
    DeadlineMonotone(p, b, es, i + 1, j);
  }

  function AttemptsWithin(p: Policy, b: Block, es: seq<Event>, lo: int, hi: int): nat {
    if es == [] then 0
    else
      var init, e := es[..|es| - 1], es[|es| - 1];
      AttemptsWithin(p, b, init, lo, hi) +
      if Act(p, After(p, b, init), e) == Attempt && lo <= e.now <= hi then 1 else 0
  }

  // A window of `hi - lo` milliseconds holds at most
  // floor((hi - lo) / (wait + 1)) + 1 attempts.
  lemma {:induction false} AttemptRate(p: Policy, b: Block, es: seq<Event>, lo: int, hi: int)
    requires p.wait >= 0 && KeepsDeadline(es) && lo <= hi
    ensures AttemptsWithin(p, b, es, lo, hi) <= (hi - lo) / (p.wait + 1) + 1
  {
    RateInduction(p, b, es, lo, hi);
    var n, w := AttemptsWithin(p, b, es, lo, hi), p.wait + 1;
    if n >= 1 {
      QuotientAtLeast(n - 1, w, hi - lo);
    } else {
      QuotientAtLeast(0, w, hi - lo);
    }
  }

  lemma {:induction false} RateInduction(p: Policy, b: Block, es: seq<Event>, lo: int, hi: int)
    requires p.wait >= 0 && KeepsDeadline(es)
    ensures var n := AttemptsWithin(p, b, es, lo, hi);
            n >= 1 ==> (n - 1) * (p.wait + 1) <= hi - lo
                       && After(p, b, es).deadline >= lo + (n - 1) * (p.wait + 1) + p.wait
  {
    if es != [] {
      var init, e := es[..|es| - 1], es[|es| - 1];
      RateInduction(p, b, init, lo, hi);
      var n := AttemptsWithin(p, b, init, lo, hi);
      if Act(p, After(p, b, init), e) == Attempt && lo <= e.now <= hi && n >= 1 {
        assert n * (p.wait + 1) == (n - 1) * (p.wait + 1) + p.wait + 1;
      }
    }
  }

  // ---------------------------------------------------------------- timing

  // A block armed at t0 cannot be reported before t0 + (limit+1)*(wait+1),
  // on any clock.
  lemma {:induction false} NotReportedEarly(p: Policy, t0: int, es: seq<Event>, i: nat)
    requires p.wait >= 0 && NoContact(es) && i < |es|
    requires ActionAt(p, Block(0, t0 + p.wait), es, i) == Exhausted
    ensures es[i].now >= t0 + (p.limit + 1) * (p.wait + 1)
  {
    var b := Block(0, t0 + p.wait);
    ActionClosedForm(p, b, es, i);
    DeadlineLowerBound(p, b, es[..i]);
    var k := Expiries(p, b, es[..i]);
    assert k >= p.limit by { ResidueAtMost(k); }
    Distribute(p.limit, p.wait + 1);
  }

  lemma {:induction false} ResidueAtMost(k: nat)
    ensures k % TWO32 <= k
  {
  }

  lemma {:induction false} DeadlineLowerBound(p: Policy, b: Block, es: seq<Event>)
    requires p.wait >= 0 && NoContact(es) && b.spent == 0
    ensures After(p, b, es).deadline >= b.deadline + Min(Expiries(p, b, es), p.limit) * (p.wait + 1)
  {
    if es != [] {
      var init := es[..|es| - 1];
      DeadlineLowerBound(p, b, init);
      CounterClosedForm(p, b, init);
      var k := Expiries(p, b, init);
      if k < p.limit {
        Distribute(k, p.wait + 1);
      }
    }
  }

  function Checks(ts: seq<int>): seq<Event> {
    seq(|ts|, i requires 0 <= i < |ts| => Check(ts[i]))
  }

  // Handler runs on a monotone clock, the first at most `gap` after t0 and each
  // at most `gap` after the one before.
  ghost predicate Paced(ts: seq<int>, t0: int, gap: int) {
    forall i :: 0 <= i < |ts| ==> Previous(ts, t0, i) <= ts[i] <= Previous(ts, t0, i) + gap
  }

  // The check before check number i, or the moment the block was armed.
  function Previous(ts: seq<int>, t0: int, i: nat): int
    requires i <= |ts|
  {
    if i == 0 then t0 else ts[i - 1]
  }

  // A block armed at t0 and never contacted is reported by
  // t0 + (limit+1)*(wait+gap), as soon as the handler has run that long.
  lemma {:induction false} ReportedInTime(p: Policy, t0: int, ts: seq<int>, gap: int)
    requires p.wait >= 0 && gap >= 1 && Paced(ts, t0, gap)
    requires ts != [] && ts[|ts| - 1] >= t0 + (p.limit + 1) * (p.wait + gap)
    ensures exists i :: 0 <= i < |ts| && ActionAt(p, Block(0, t0 + p.wait), Checks(ts), i) == Exhausted
                        && ts[i] <= t0 + (p.limit + 1) * (p.wait + gap)
  {
    var b, es, n := Block(0, t0 + p.wait), Checks(ts), |ts|;
    assert es[..n] == es;
    if Quiet(p, b, es, n) {
      PacedBound(p, t0, ts, gap, n);
      PacedLimit(p, t0, gap, Previous(ts, t0, n), After(p, b, es));
      assert false;
    }
    var j := FirstReport(p, b, es);
    PacedBound(p, t0, ts, gap, j);
    PacedLimit(p, t0, gap, Previous(ts, t0, j), After(p, b, es[..j]));
  }

  lemma {:induction false} PacedLimit(p: Policy, t0: int, gap: int, last: int, a: Block)
    requires p.wait >= 0 && gap >= 1 && PacedBlock(p, t0, gap, last, a)
    ensures last + gap <= t0 + (p.limit + 1) * (p.wait + gap)
    ensures last < t0 + (p.limit + 1) * (p.wait + gap)
  {
    ProductMonotone(a.spent, p.limit, p.wait + gap);
    Distribute(p.limit, p.wait + gap);
  }

  ghost predicate Quiet(p: Policy, b: Block, es: seq<Event>, n: nat)
    requires n <= |es|
  {
    forall i :: 0 <= i < n ==> ActionAt(p, b, es, i) != Exhausted
  }

  lemma {:induction false} FirstReport(p: Policy, b: Block, es: seq<Event>) returns (j: nat)
    requires !Quiet(p, b, es, |es|)
    ensures j < |es| && ActionAt(p, b, es, j) == Exhausted && Quiet(p, b, es, j)
  {
    j := 0;
    while ActionAt(p, b, es, j) != Exhausted
      invariant j < |es| && Quiet(p, b, es, j)
      decreases |es| - j
    {
      j := j + 1;
    }
  }

  // While nothing was reported, the deadline is ahead of the last check and
  // has moved by at most wait + gap per attempt.
  ghost predicate PacedBlock(p: Policy, t0: int, gap: int, last: int, a: Block) {
    && a.spent <= p.limit
    && last <= a.deadline
    && a.deadline <= t0 + p.wait + a.spent * (p.wait + gap)
  }

  lemma {:induction false} PacedStep(p: Policy, t0: int, gap: int, last: int, c: Block, now: int)
    requires p.wait >= 0 && gap >= 1 && PacedBlock(p, t0, gap, last, c) && last <= now <= last + gap
    requires Act(p, c, Check(now)) != Exhausted
    ensures PacedBlock(p, t0, gap, now, Step(p, c, Check(now)))
  {
    if now > c.deadline {
      Distribute(c.spent, p.wait + gap);
      assert now + p.wait <= c.deadline + (p.wait + gap);
    }
  }

  lemma {:induction false} PacedBound(p: Policy, t0: int, ts: seq<int>, gap: int, n: nat)
    requires p.wait >= 0 && gap >= 1 && Paced(ts, t0, gap) && n <= |ts|
    requires Quiet(p, Block(0, t0 + p.wait), Checks(ts), n)
    ensures var a := After(p, Block(0, t0 + p.wait), Checks(ts)[..n]);
            PacedBlock(p, t0, gap, Previous(ts, t0, n), a)
  {
    var b, es := Block(0, t0 + p.wait), Checks(ts);
    if n > 0 {
      PacedBound(p, t0, ts, gap, n - 1);
      assert es[..n][..n - 1] == es[..n - 1];
      assert ActionAt(p, b, es, n - 1) != Exhausted;
      PacedStep(p, t0, gap, Previous(ts, t0, n - 1), After(p, b, es[..n - 1]), ts[n - 1]);
    }
  }
}
