/** The bounded evaluation of `where` predicates: four slots, a deadline for each call, predicates that run on after
    a timeout, and an executor that may be shut down. */
module EvalSlots {
  import opened Sequences
  import opened Text

  const MAX_WORKERS: nat := 4

  datatype Outcome = Yes | No | Raised | Cancelled

  /** A submitted predicate. It finishes at time `done`, and holds its slot until its completion callback has run, at
      time `at`. */
  datatype Job =
    | Pending
    | Running
    | Finished(outcome: Outcome, done: int)
    | Settled(outcome: Outcome, done: int, at: int)

  /** A call of `_evaluate_where_with_timeout`: queueing for a slot, holding one with nothing submitted yet, waiting for
      a job, turned away before it submitted anything (with or without a slot in hand), timed out while its job went
      on, or answered. */
  datatype Phase =
    | Queueing
    | Holding
    | Awaiting(job: nat)
    | Refused(held: bool)
    | Expired(job: nat)
    | Answered(job: nat, outcome: Outcome)

  datatype Call = Call(deadline: int, phase: Phase)

  datatype State = State(now: int, permits: int, calls: seq<Call>, jobs: seq<Job>)

  const INIT := State(0, MAX_WORKERS, [], [])

  datatype Step =
    | Begin(timeout: int)     // a new call
    | Grant(c: nat)           // the semaphore hands a permit to a queued call
    | Abandon(c: nat)         // the deadline passes before anything is submitted
    | Submit(c: nat)
    | Run(j: nat)
    | Finish(j: nat, outcome: Outcome)
    | Shutdown                // jobs that have not started are cancelled
    | Settle(j: nat)          // the completion callback releases the slot
    | Expire(c: nat)          // the timer of a waiting call fires
    | Resume(c: nat)          // a waiting call receives its job's outcome
    | Tick(t: int)

  predicate IsHolding(c: Call) { c.phase.Holding? }

  predicate IsUnsettled(j: Job) { !j.Settled? }

  predicate Enabled(s: State, step: Step) {
    match step
    case Begin(_) => true
    case Grant(c) => c < |s.calls| && s.calls[c].phase.Queueing? && s.permits > 0
    case Abandon(c) =>
      c < |s.calls| && (s.calls[c].phase.Queueing? || s.calls[c].phase.Holding?) && s.now >= s.calls[c].deadline
    case Submit(c) => c < |s.calls| && s.calls[c].phase.Holding? && s.now < s.calls[c].deadline
    case Run(j) => j < |s.jobs| && s.jobs[j].Pending?
    case Finish(j, o) => j < |s.jobs| && s.jobs[j].Running? && !o.Cancelled?
    case Shutdown => true
    case Settle(j) => j < |s.jobs| && s.jobs[j].Finished?
    case Expire(c) => c < |s.calls| && s.calls[c].phase.Awaiting? && s.now >= s.calls[c].deadline
    case Resume(c) =>
      && c < |s.calls| && s.calls[c].phase.Awaiting?
      && s.calls[c].phase.job < |s.jobs| && s.jobs[s.calls[c].phase.job].Settled?
    case Tick(t) => t >= s.now
  }

  function WithPhase(s: State, c: nat, p: Phase): State
    requires c < |s.calls|
  {
    s.(calls := s.calls[c := s.calls[c].(phase := p)])
  }

  /** `locked()`: no permit is free, or others queue already. */
  predicate Locked(s: State) {
    s.permits <= 0 || exists c :: 0 <= c < |s.calls| && s.calls[c].phase.Queueing?
  }

  function CancelPending(jobs: seq<Job>, now: int): (r: seq<Job>)
    ensures |r| == |jobs|
    ensures forall j :: 0 <= j < |jobs| ==> r[j] == if jobs[j].Pending? then Finished(Cancelled, now) else jobs[j]
  {
    if jobs == [] then []
    else [if jobs[0].Pending? then Finished(Cancelled, now) else jobs[0]] + CancelPending(jobs[1..], now)
  }

  function Next(s: State, step: Step): State
    requires Enabled(s, step)
  {
    match step
    case Begin(timeout) =>
      if Locked(s) then s.(calls := s.calls + [Call(s.now + timeout, Queueing)])
      else s.(permits := s.permits - 1, calls := s.calls + [Call(s.now + timeout, Holding)])
    case Grant(c) => WithPhase(s, c, Holding).(permits := s.permits - 1)
    case Abandon(c) =>
      var held := s.calls[c].phase.Holding?;
      WithPhase(s, c, Refused(held)).(permits := if held then s.permits + 1 else s.permits)
    case Submit(c) => WithPhase(s, c, Awaiting(|s.jobs|)).(jobs := s.jobs + [Pending])
    case Run(j) => s.(jobs := s.jobs[j := Running])
    case Finish(j, o) => s.(jobs := s.jobs[j := Finished(o, s.now)])
    case Shutdown => s.(jobs := CancelPending(s.jobs, s.now))
    case Settle(j) =>
      s.(jobs := s.jobs[j := Settled(s.jobs[j].outcome, s.jobs[j].done, s.now)], permits := s.permits + 1)
    case Expire(c) => WithPhase(s, c, Expired(s.calls[c].phase.job))
    case Resume(c) => WithPhase(s, c, Answered(s.calls[c].phase.job, s.jobs[s.calls[c].phase.job].outcome))
    case Tick(t) => s.(now := t)
  }

  /** The regions of `_evaluate_where_with_timeout` between two awaits, the completion callback and the shutdown,
      carried out in place. The clock and the worker threads are not the evaluator's doing. */
  class Evaluator {
    var now: int
    var permits: int
    var calls: seq<Call>
    var jobs: seq<Job>

    ghost function View(): State
      reads this
    {
      State(now, permits, calls, jobs)
    }

    constructor ()
      ensures View() == INIT
    {
      now, permits, calls, jobs := 0, MAX_WORKERS, [], [];
    }

    method IsLocked() returns (r: bool)
      ensures r <==> Locked(View())
    {
      if permits <= 0 { return true; }
      for c := 0 to |calls|
        invariant forall k :: 0 <= k < c ==> !calls[k].phase.Queueing?
      {
        if calls[c].phase.Queueing? { return true; }
      }
      return false;
    }

    /** Up to the acquisition: without contention the slot is taken at once. */
    method Enter(timeout: int)
      modifies this
      ensures View() == Next(old(View()), Begin(timeout))
      ensures |calls| == old(|calls|) + 1 && calls[old(|calls|)].deadline == now + timeout && now == old(now)
      ensures calls[old(|calls|)].phase.Holding? <==>
              old(permits) > 0 && forall c :: 0 <= c < old(|calls|) ==> !old(calls)[c].phase.Queueing?
    {
      var deadline := now + timeout;
      var locked := IsLocked();
      if locked {
        calls := calls + [Call(deadline, Queueing)];
      } else {
        permits := permits - 1;
        calls := calls + [Call(deadline, Holding)];
      }
    }

    /** With a slot in hand: give it back if the deadline has passed, else submit the predicate. */
    method Proceed(c: nat)
      requires c < |calls| && calls[c].phase.Holding?
      modifies this
      ensures View() == Next(old(View()), if old(now) >= old(calls)[c].deadline then Abandon(c) else Submit(c))
    {
      var remaining := calls[c].deadline - now;
      if remaining <= 0 {
        permits := permits + 1;
        calls := calls[c := calls[c].(phase := Refused(true))];
        return;
      }
      calls := calls[c := calls[c].(phase := Awaiting(|jobs|))];
      jobs := jobs + [Pending];
    }

    /** A timer fired, on a call in the queue or on one that waits for its job. */
    method TimedOut(c: nat)
      requires Enabled(View(), Expire(c)) || (Enabled(View(), Abandon(c)) && calls[c].phase.Queueing?)
      modifies this
      ensures View() == Next(old(View()), if old(calls)[c].phase.Queueing? then Abandon(c) else Expire(c))
    {
      var phase := calls[c].phase;
      calls := calls[c := calls[c].(phase := if phase.Queueing? then Refused(false) else Expired(phase.job))];
    }

    /** The completion callback. */
    method ReleaseSlot(j: nat)
      requires Enabled(View(), Settle(j))
      modifies this
      ensures View() == Next(old(View()), Settle(j))
    {
      permits := permits + 1;
      jobs := jobs[j := Settled(jobs[j].outcome, jobs[j].done, now)];
    }

    /** `shutdown(cancel_futures=True)`. */
    method ShutDown()
      modifies this
      ensures View() == Next(old(View()), Shutdown)
    {
      hide Locked;
      var was := jobs;
      for j := 0 to |was|
        invariant now == old(now) && permits == old(permits) && calls == old(calls) && |jobs| == |was|
        invariant forall k :: 0 <= k < |was| ==>
          jobs[k] == if k < j && was[k].Pending? then Finished(Cancelled, now) else was[k]
      {
        if jobs[j].Pending? { jobs := jobs[j := Finished(Cancelled, now)]; }
      }
      assert forall k :: 0 <= k < |was| ==> CancelPending(was, now)[k] == jobs[k];
      assert jobs == CancelPending(was, now);
    }
  }

  predicate IsRun(s: State, steps: seq<Step>)
    decreases |steps|
  {
    steps == [] || (Enabled(s, steps[0]) && IsRun(Next(s, steps[0]), steps[1..]))
  }

  function Execute(s: State, steps: seq<Step>): State
    requires IsRun(s, steps)
    decreases |steps|
  {
    if steps == [] then s else Execute(Next(s, steps[0]), steps[1..])
  }

  // ----- slots -----

  function Count<T>(s: seq<T>, p: T -> bool): nat {
    if s == [] then 0 else (if p(s[0]) then 1 else 0) + Count(s[1..], p)
  }

  lemma {:induction false} CountUpdate<T>(s: seq<T>, p: T -> bool, i: nat, x: T)
    requires i < |s|
    ensures Count(s[i := x], p) == Count(s, p) - (if p(s[i]) then 1 else 0) + (if p(x) then 1 else 0)
  {
    if i == 0 {
      assert s[0 := x] == [x] + s[1..];
    } else {
      assert s[i := x][1..] == s[1..][i - 1 := x];
      CountUpdate(s[1..], p, i - 1, x);
    }
  }

  lemma {:induction false} CountAppend<T>(s: seq<T>, p: T -> bool, x: T)
    ensures Count(s + [x], p) == Count(s, p) + (if p(x) then 1 else 0)
  {
    if s == [] {
      assert s + [x] == [x];
    } else {
      assert (s + [x])[1..] == s[1..] + [x];
      CountAppend(s[1..], p, x);
    }
  }

  lemma {:induction false} CountCancelled(jobs: seq<Job>, now: int)
    ensures Count(CancelPending(jobs, now), IsUnsettled) == Count(jobs, IsUnsettled)
    decreases |jobs|
  {
    if jobs == [] {
    } else {
      var r := CancelPending(jobs, now);
      assert r[1..] == CancelPending(jobs[1..], now);
      CountCancelled(jobs[1..], now);
    }
  }

  /** Slots free, held by calls with nothing submitted, and held by jobs that have not settled. */
  function Slots(s: State): int {
    s.permits + Count(s.calls, IsHolding) + Count(s.jobs, IsUnsettled)
  }

  lemma SlotsKept(s: State, step: Step)
    requires Enabled(s, step)
    ensures Slots(Next(s, step)) == Slots(s)
  {
    hide Count;
    var t := Next(s, step);
    match step
    case Begin(_) => CountAppend(s.calls, IsHolding, t.calls[|s.calls|]);
    case Grant(c) => CountUpdate(s.calls, IsHolding, c, t.calls[c]);
    case Abandon(c) => CountUpdate(s.calls, IsHolding, c, t.calls[c]);
    case Submit(c) =>
      CountUpdate(s.calls, IsHolding, c, t.calls[c]);
      CountAppend(s.jobs, IsUnsettled, Pending);
    case Run(j) => CountUpdate(s.jobs, IsUnsettled, j, t.jobs[j]);
    case Finish(j, _) => CountUpdate(s.jobs, IsUnsettled, j, t.jobs[j]);
    case Shutdown => CountCancelled(s.jobs, s.now);
    case Settle(j) => CountUpdate(s.jobs, IsUnsettled, j, t.jobs[j]);
    case Expire(c) => CountUpdate(s.calls, IsHolding, c, t.calls[c]);
    case Resume(c) => CountUpdate(s.calls, IsHolding, c, t.calls[c]);
    case Tick(_) =>
  }

  // ----- the ledger -----

  /** Kept along a run: how often each call acquired and released a slot, and which call submitted each job. */
  datatype Ledger = Ledger(acquired: seq<nat>, released: seq<nat>, owner: seq<nat>)

  const NO_ENTRIES := Ledger([], [], [])

  function Bump(s: seq<nat>, i: nat): (r: seq<nat>)
    ensures |r| == |s|
  {
    if i < |s| then s[i := s[i] + 1] else s
  }

  /** What a step adds to the ledger: a permit taken by a call on entry or in the queue, a permit given back by a call
      that is turned away with one, or by the callback of a call's job. */
  function Post(l: Ledger, s: State, step: Step): Ledger
    requires Enabled(s, step)
  {
    match step
    case Begin(_) => l.(acquired := l.acquired + [if Locked(s) then 0 else 1], released := l.released + [0])
    case Grant(c) => l.(acquired := Bump(l.acquired, c))
    case Abandon(c) => if s.calls[c].phase.Holding? then l.(released := Bump(l.released, c)) else l
    case Submit(c) => l.(owner := l.owner + [c])
    case Settle(j) => if j < |l.owner| then l.(released := Bump(l.released, l.owner[j])) else l
    case _ => l
  }

  function LedgerOf(s: State, l: Ledger, steps: seq<Step>): Ledger
    requires IsRun(s, steps)
    decreases |steps|
  {
    if steps == [] then l else LedgerOf(Next(s, steps[0]), Post(l, s, steps[0]), steps[1..])
  }

  function JobOf(p: Phase): Option<nat> {
    match p
    case Awaiting(j) => Some(j)
    case Expired(j) => Some(j)
    case Answered(j, _) => Some(j)
    case _ => None
  }

  /** The slots a call has acquired, by where it stands. */
  function Acquired(p: Phase): nat {
    if p.Queueing? || p == Refused(false) then 0 else 1
  }

  /** The slots that have been released for a call, by where it and its job stand. */
  function Released(p: Phase, jobs: seq<Job>): nat {
    if p == Refused(true) || (JobOf(p).Some? && JobOf(p).value < |jobs| && jobs[JobOf(p).value].Settled?) then 1 else 0
  }

  ghost predicate Tallied(s: State, l: Ledger) {
    && |l.acquired| == |l.released| == |s.calls|
    && forall c :: 0 <= c < |s.calls| ==>
         l.acquired[c] == Acquired(s.calls[c].phase) && l.released[c] == Released(s.calls[c].phase, s.jobs)
  }

  /** Each job is of the one call that submitted it. */
  ghost predicate Owned(s: State, l: Ledger) {
    && |l.owner| == |s.jobs|
    && (forall c :: 0 <= c < |s.calls| && JobOf(s.calls[c].phase).Some? ==>
          JobOf(s.calls[c].phase).value < |s.jobs| && l.owner[JobOf(s.calls[c].phase).value] == c)
    && (forall j :: 0 <= j < |s.jobs| ==> l.owner[j] < |s.calls| && JobOf(s.calls[l.owner[j]].phase) == Some(j))
  }

  ghost predicate Booked(s: State, l: Ledger) {
    Tallied(s, l) && Owned(s, l)
  }

  function Sum(s: seq<nat>): nat {
    if s == [] then 0 else s[0] + Sum(s[1..])
  }

  lemma {:induction false} SumBump(s: seq<nat>, i: nat)
    requires i < |s|
    ensures Sum(Bump(s, i)) == Sum(s) + 1
  {
    if i == 0 {
      assert Bump(s, 0)[1..] == s[1..];
    } else {
      assert Bump(s, i)[1..] == Bump(s[1..], i - 1);
      SumBump(s[1..], i - 1);
    }
  }

  lemma {:induction false} SumAppend(s: seq<nat>, x: nat)
    ensures Sum(s + [x]) == Sum(s) + x
  {
    if s == [] {
      assert [] + [x] == [x] && [x][1..] == [];
    } else {
      assert (s + [x])[1..] == s[1..] + [x];
      SumAppend(s[1..], x);
    }
  }

  /** The permits are those there were, less the acquisitions, plus the releases of the ledger. */
  predicate Reconciled(s: State, l: Ledger) {
    s.permits == MAX_WORKERS - Sum(l.acquired) + Sum(l.released)
  }

  lemma ReconciledKept(s: State, l: Ledger, step: Step)
    requires Booked(s, l) && Reconciled(s, l) && Enabled(s, step)
    ensures Reconciled(Next(s, step), Post(l, s, step))
  {
    hide Sum, Locked, CancelPending;
    match step
    case Begin(_) =>
      SumAppend(l.acquired, if Locked(s) then 0 else 1);
      SumAppend(l.released, 0);
    case Grant(c) => SumBump(l.acquired, c);
    case Abandon(c) => SumBump(l.released, c);
    case Settle(j) => SumBump(l.released, l.owner[j]);
    case _ =>
  }

  lemma SameJobsOwned(s: State, l: Ledger, t: State, l': Ledger)
    requires Owned(s, l) && l'.owner == l.owner && |t.jobs| == |s.jobs| && |t.calls| >= |s.calls|
    requires forall c :: 0 <= c < |s.calls| ==> JobOf(t.calls[c].phase) == JobOf(s.calls[c].phase)
    requires forall c :: |s.calls| <= c < |t.calls| ==> JobOf(t.calls[c].phase).None?
    ensures Owned(t, l')
  {
    hide JobOf;
  }

  lemma SubmitOwned(s: State, l: Ledger, c: nat)
    requires Owned(s, l) && Enabled(s, Submit(c))
    ensures Owned(Next(s, Submit(c)), Post(l, s, Submit(c)))
  {
    var t, l' := Next(s, Submit(c)), Post(l, s, Submit(c));
    assert forall d :: 0 <= d < |s.calls| && d != c ==> t.calls[d] == s.calls[d];
    assert forall j :: 0 <= j < |s.jobs| ==> l'.owner[j] == l.owner[j] != c;
  }

  lemma OwnedKept(s: State, l: Ledger, step: Step)
    requires Owned(s, l) && Enabled(s, step)
    ensures Owned(Next(s, step), Post(l, s, step))
  {
    hide Owned, Locked, Bump;
    if step.Submit? {
      SubmitOwned(s, l, step.c);
    } else {
      SameJobsOwned(s, l, Next(s, step), Post(l, s, step));
    }
  }

  lemma TalliedKept(s: State, l: Ledger, step: Step)
    requires Tallied(s, l) && Owned(s, l) && Enabled(s, step) && !step.Settle?
    ensures Tallied(Next(s, step), Post(l, s, step))
  {
    hide Locked, Owned;
    SameReleases(s.jobs, Next(s, step).jobs);
  }

  /** As long as no callback runs, nothing is released for a call because of its job. */
  lemma SameReleases(jobs: seq<Job>, jobs': seq<Job>)
    requires |jobs| <= |jobs'| && forall j :: 0 <= j < |jobs| ==> jobs'[j].Settled? == jobs[j].Settled?
    requires forall j :: |jobs| <= j < |jobs'| ==> !jobs'[j].Settled?
    ensures forall p :: Released(p, jobs') == Released(p, jobs)
  {
  }

  lemma SettleTallied(s: State, l: Ledger, j: nat)
    requires Tallied(s, l) && Owned(s, l) && Enabled(s, Settle(j))
    ensures Tallied(Next(s, Settle(j)), Post(l, s, Settle(j)))
  {
    var t, l' := Next(s, Settle(j)), Post(l, s, Settle(j));
    forall c | 0 <= c < |s.calls| ensures l'.released[c] == Released(t.calls[c].phase, t.jobs) {
      var job := JobOf(s.calls[c].phase);
      assert job == Some(j) <==> c == l.owner[j];
    }
  }

  lemma BookedKept(s: State, l: Ledger, step: Step)
    requires Booked(s, l) && Enabled(s, step)
    ensures Booked(Next(s, step), Post(l, s, step))
  {
    hide Next, Post, Tallied, Owned;
    OwnedKept(s, l, step);
    if step.Settle? { SettleTallied(s, l, step.j); } else { TalliedKept(s, l, step); }
  }

  lemma {:induction false} RunsKeepLedger(s: State, l: Ledger, steps: seq<Step>)
    requires Booked(s, l) && Reconciled(s, l) && IsRun(s, steps)
    ensures Booked(Execute(s, steps), LedgerOf(s, l, steps)) && Reconciled(Execute(s, steps), LedgerOf(s, l, steps))
    decreases |steps|
  {
    hide Next, Post, Booked, Reconciled;
    if steps == [] {
    } else {
      BookedKept(s, l, steps[0]);
      ReconciledKept(s, l, steps[0]);
      RunsKeepLedger(Next(s, steps[0]), Post(l, s, steps[0]), steps[1..]);
    }
  }

  // ----- answers -----

  /** A call was answered with the outcome of its job, and the clock has passed nothing that is still to come. */
  ghost predicate Linked(s: State) {
    && s.permits >= 0
    && (forall j :: 0 <= j < |s.jobs| && s.jobs[j].Finished? ==> s.jobs[j].done <= s.now)
    && (forall j :: 0 <= j < |s.jobs| && s.jobs[j].Settled? ==> s.jobs[j].done <= s.jobs[j].at <= s.now)
    && (forall c :: 0 <= c < |s.calls| && s.calls[c].phase.Awaiting? ==> s.calls[c].phase.job < |s.jobs|)
    && (forall c :: 0 <= c < |s.calls| && s.calls[c].phase.Answered? ==>
          var p := s.calls[c].phase;
          p.job < |s.jobs| && s.jobs[p.job].Settled? && s.jobs[p.job].outcome == p.outcome)
  }

  lemma LinkedKept(s: State, step: Step)
    requires Linked(s) && Enabled(s, step)
    ensures Linked(Next(s, step))
  {
    hide Locked;
    if step.Begin? && !Locked(s) { UnlockedHasPermit(s); }
  }

  lemma UnlockedHasPermit(s: State)
    requires !Locked(s)
    ensures s.permits > 0
  {
  }

  lemma {:induction false} RunsKeep(s: State, steps: seq<Step>)
    requires Linked(s) && IsRun(s, steps)
    ensures Linked(Execute(s, steps)) && Slots(Execute(s, steps)) == Slots(s)
    decreases |steps|
  {
    hide Next, Linked, Slots;
    if steps == [] {
    } else {
      LinkedKept(s, steps[0]);
      SlotsKept(s, steps[0]);
      RunsKeep(Next(s, steps[0]), steps[1..]);
    }
  }

  // ----- when calls began -----

  /** When a call began, and its timeout. */
  datatype Start = Start(begun: int, timeout: int)

  /** The calls begun by a run that starts at time `now`: the clock shows what the last tick said. */
  function Starts(now: int, steps: seq<Step>): seq<Start>
    decreases |steps|
  {
    if steps == [] then []
    else
      match steps[0]
      case Begin(timeout) => [Start(now, timeout)] + Starts(now, steps[1..])
      case Tick(t) => Starts(t, steps[1..])
      case _ => Starts(now, steps[1..])
  }

  /** A call's deadline is its timeout after its start, and none is turned away or times out before it. */
  ghost predicate Punctual(s: State, starts: seq<Start>) {
    && |starts| == |s.calls|
    && forall c :: 0 <= c < |s.calls| ==>
         && s.calls[c].deadline == starts[c].begun + starts[c].timeout
         && (s.calls[c].phase.Refused? || s.calls[c].phase.Expired? ==> s.now >= s.calls[c].deadline)
  }

  lemma PunctualKept(s: State, starts: seq<Start>, step: Step)
    requires Punctual(s, starts) && Enabled(s, step)
    ensures Punctual(Next(s, step), if step.Begin? then starts + [Start(s.now, step.timeout)] else starts)
  {
    hide Locked, CancelPending;
  }

  lemma {:induction false} RunsArePunctual(s: State, starts: seq<Start>, steps: seq<Step>)
    requires Punctual(s, starts) && IsRun(s, steps)
    ensures Punctual(Execute(s, steps), starts + Starts(s.now, steps))
    decreases |steps|
  {
    hide Punctual;
    if steps == [] {
      assert starts + [] == starts;
    } else {
      var t := Next(s, steps[0]);
      var more := if steps[0].Begin? then starts + [Start(s.now, steps[0].timeout)] else starts;
      PunctualKept(s, starts, steps[0]);
      RunsArePunctual(t, more, steps[1..]);
      assert starts + Starts(s.now, steps) == more + Starts(t.now, steps[1..]) by { hide Locked, CancelPending; }
    }
  }

  // ----- how late the loop may be -----

  /** The loop runs no due timer more than `late` after its time: while a call waits, the clock does not get further
      than that past its deadline. */
  ghost predicate NoLater(s: State, steps: seq<Step>, late: nat)
    requires IsRun(s, steps)
    decreases |steps|
  {
    steps != [] ==>
      && (steps[0].Tick? ==>
            forall c :: 0 <= c < |s.calls| && s.calls[c].phase.Awaiting? ==> steps[0].t <= s.calls[c].deadline + late)
      && NoLater(Next(s, steps[0]), steps[1..], late)
  }

  ghost predicate Timely(s: State, late: nat) {
    && (forall c :: 0 <= c < |s.calls| && s.calls[c].phase.Awaiting? ==> s.now <= s.calls[c].deadline + late)
    && (forall c :: 0 <= c < |s.calls| && s.calls[c].phase.Answered? ==>
          var j := s.calls[c].phase.job;
          j < |s.jobs| && s.jobs[j].Settled? && s.jobs[j].done <= s.calls[c].deadline + late)
  }

  lemma TimelyKept(s: State, step: Step, late: nat)
    requires Linked(s) && Timely(s, late) && Enabled(s, step)
    requires step.Tick? ==>
      forall c :: 0 <= c < |s.calls| && s.calls[c].phase.Awaiting? ==> step.t <= s.calls[c].deadline + late
    ensures Timely(Next(s, step), late)
  {
    hide Locked;
  }

  lemma {:induction false} BoundedRunsAreTimely(s: State, steps: seq<Step>, late: nat)
    requires Linked(s) && Timely(s, late) && IsRun(s, steps) && NoLater(s, steps, late)
    ensures Timely(Execute(s, steps), late)
    decreases |steps|
  {
    hide Next, Linked, Timely;
    if steps == [] {
    } else {
      LinkedKept(s, steps[0]);
      TimelyKept(s, steps[0], late);
      BoundedRunsAreTimely(Next(s, steps[0]), steps[1..], late);
    }
  }

  // ----- main results -----

  /** Over every run, the deadline of a call is its timeout after the time at which it began. A call is turned away or
      times out no earlier than that; a call that holds a slot submits its predicate before it, and from then on can
      only give the slot back. */
  lemma DeadlineIsAfterStart(steps: seq<Step>, c: nat)
    requires IsRun(INIT, steps) && c < |Execute(INIT, steps).calls|
    ensures var s, starts := Execute(INIT, steps), Starts(0, steps);
            && |starts| == |s.calls|
            && var due, p := starts[c].begun + starts[c].timeout, s.calls[c].phase;
            && s.calls[c].deadline == due
            && (p.Refused? || p.Expired? || Enabled(s, Abandon(c)) || Enabled(s, Expire(c)) ==> s.now >= due)
            && (p.Holding? ==> (Enabled(s, Submit(c)) <==> s.now < due) && (Enabled(s, Abandon(c)) <==> s.now >= due))
            && (p.Queueing? ==> (Enabled(s, Abandon(c)) <==> s.now >= due) && (Enabled(s, Grant(c)) <==> s.permits > 0))
            && (p.Awaiting? ==> (Enabled(s, Expire(c)) <==> s.now >= due))
  {
    hide Execute, IsRun, Next, Starts;
    RunsArePunctual(INIT, [], steps);
    assert [] + Starts(0, steps) == Starts(0, steps);
  }

  /** A call that holds a slot before its deadline can be answered with whatever its predicate comes to: from every
      state there are steps that lead there. */
  lemma HolderCanBeAnswered(s: State, c: nat, o: Outcome)
    requires c < |s.calls| && s.calls[c].phase.Holding? && s.now < s.calls[c].deadline && !o.Cancelled?
    ensures var n := |s.jobs|;
            var steps := [Submit(c), Run(n), Finish(n, o), Settle(n), Resume(c)];
            IsRun(s, steps) && |Execute(s, steps).calls| == |s.calls| &&
            Execute(s, steps).calls[c].phase == Answered(n, o)
  {
    hide IsRun, Execute, Locked, CancelPending;
    var n := |s.jobs|;
    var s1 := Next(s, Submit(c));
    var s2 := Next(s1, Run(n));
    var s3 := Next(s2, Finish(n, o));
    var s4 := Next(s3, Settle(n));
    Ends(s4, Resume(c));
    Precedes(s3, Settle(n), [Resume(c)]);
    Precedes(s2, Finish(n, o), [Settle(n), Resume(c)]);
    Precedes(s1, Run(n), [Finish(n, o), Settle(n), Resume(c)]);
    Precedes(s, Submit(c), [Run(n), Finish(n, o), Settle(n), Resume(c)]);
    assert [Submit(c)] + [Run(n), Finish(n, o), Settle(n), Resume(c)] ==
           [Submit(c), Run(n), Finish(n, o), Settle(n), Resume(c)];
    assert [Run(n)] + [Finish(n, o), Settle(n), Resume(c)] == [Run(n), Finish(n, o), Settle(n), Resume(c)];
    assert [Finish(n, o)] + [Settle(n), Resume(c)] == [Finish(n, o), Settle(n), Resume(c)];
    assert [Settle(n)] + [Resume(c)] == [Settle(n), Resume(c)];
  }

  lemma Ends(s: State, step: Step)
    requires Enabled(s, step)
    ensures IsRun(s, [step]) && Execute(s, [step]) == Next(s, step)
  {
    assert [step][1..] == [];
    assert IsRun(Next(s, step), []);
  }

  lemma Precedes(s: State, step: Step, rest: seq<Step>)
    requires Enabled(s, step) && IsRun(Next(s, step), rest)
    ensures IsRun(s, [step] + rest) && Execute(s, [step] + rest) == Execute(Next(s, step), rest)
  {
    assert ([step] + rest)[1..] == rest;
  }

  /** Over every run there are four slots: those free, those of calls that have submitted nothing yet, and those of
      jobs whose completion callback has not run. */
  lemma SlotsAreConserved(steps: seq<Step>)
    requires IsRun(INIT, steps)
    ensures var s := Execute(INIT, steps);
            s.permits >= 0 && s.permits + Count(s.calls, IsHolding) + Count(s.jobs, IsUnsettled) == 4
  {
    hide Execute, IsRun, Next;
    RunsKeep(INIT, steps);
  }

  /** Over every run, of the acquisitions and releases that moved the permits: a call acquires at most once, and its
      slot is released at most once, exactly when it was turned away with the slot in hand or the callback of its own
      job has run. */
  lemma EachSlotIsReleasedOnce(steps: seq<Step>, c: nat)
    requires IsRun(INIT, steps) && c < |Execute(INIT, steps).calls|
    ensures var s, l := Execute(INIT, steps), LedgerOf(INIT, NO_ENTRIES, steps);
            var p := s.calls[c].phase;
            && s.permits == 4 - Sum(l.acquired) + Sum(l.released)
            && |l.acquired| == |l.released| == |s.calls| && |l.owner| == |s.jobs|
            && l.released[c] <= l.acquired[c] <= 1
            && (l.acquired[c] == 0 <==> p.Queueing? || p == Refused(false))
            && (JobOf(p).Some? ==> JobOf(p).value < |s.jobs| && l.owner[JobOf(p).value] == c)
            && (l.released[c] == 1 <==> p == Refused(true) || (JobOf(p).Some? && s.jobs[JobOf(p).value].Settled?))
  {
    hide Execute, IsRun, Next, LedgerOf, Sum;
    InitIsBooked();
    RunsKeepLedger(INIT, NO_ENTRIES, steps);
  }

  lemma InitIsBooked()
    ensures Booked(INIT, NO_ENTRIES) && Reconciled(INIT, NO_ENTRIES)
  {
  }

  /** Over every run, a timeout frees no running slot: as long as the callback of the job that a timed-out call left
      behind has not run, the call has released nothing, its job is one of those that hold a slot, and so no more than
      three slots are free or with calls. */
  lemma TimeoutFreesNothing(steps: seq<Step>, c: nat)
    requires IsRun(INIT, steps) && c < |Execute(INIT, steps).calls| && Execute(INIT, steps).calls[c].phase.Expired?
    ensures var s, l := Execute(INIT, steps), LedgerOf(INIT, NO_ENTRIES, steps);
            var j := s.calls[c].phase.job;
            && j < |s.jobs| && c < |l.acquired| && c < |l.released|
            && l.acquired[c] == 1 && l.released[c] == (if s.jobs[j].Settled? then 1 else 0)
            && (!s.jobs[j].Settled? ==>
                  && Count(Without(s.jobs, j), IsUnsettled) == Count(s.jobs, IsUnsettled) - 1
                  && s.permits + Count(s.calls, IsHolding) < 4)
  {
    hide Execute, IsRun, Next, LedgerOf, Sum, Count;
    EachSlotIsReleasedOnce(steps, c);
    SlotsAreConserved(steps);
    var s := Execute(INIT, steps);
    CountWithout(s.jobs, IsUnsettled, s.calls[c].phase.job);
  }

  lemma {:induction false} CountWithout<T>(s: seq<T>, p: T -> bool, i: nat)
    requires i < |s|
    ensures Count(Without(s, i), p) == Count(s, p) - (if p(s[i]) then 1 else 0)
  {
    if i == 0 {
      assert s[..0] + s[1..] == s[1..];
    } else {
      assert Without(s, i)[1..] == Without(s[1..], i - 1);
      CountWithout(s[1..], p, i - 1);
    }
  }

  /** Over every run, a call answers true only with its own job's outcome, a predicate that finished true; if the loop
      is never more than `late` behind a due timer, it finished no more than that after the call's deadline. */
  lemma TrueMeansFinishedTrue(steps: seq<Step>, c: nat, late: nat)
    requires IsRun(INIT, steps) && SaysYes(Execute(INIT, steps), c)
    ensures var s := Execute(INIT, steps);
            var j := s.calls[c].phase.job;
            && j < |s.jobs| && s.jobs[j].Settled? && s.jobs[j].outcome == Yes
            && (NoLater(INIT, steps, late) ==> s.jobs[j].done <= s.calls[c].deadline + late)
  {
    hide Execute, IsRun, Next, NoLater;
    RunsKeep(INIT, steps);
    if NoLater(INIT, steps, late) { BoundedRunsAreTimely(INIT, steps, late); }
  }

  predicate SaysYes(s: State, c: nat) {
    c < |s.calls| && s.calls[c].phase.Answered? && s.calls[c].phase.outcome == Yes
  }

  /** The promise for one call of a run in a loop whose timers are at most `late` behind: if it answers true, the
      predicate finished by the deadline. */
  ghost predicate MeetsDeadline(steps: seq<Step>, c: nat, late: nat) {
    IsRun(INIT, steps) && NoLater(INIT, steps, late) && SaysYes(Execute(INIT, steps), c) ==>
      var s := Execute(INIT, steps);
      var j := s.calls[c].phase.job;
      j < |s.jobs| && s.jobs[j].Settled? && s.jobs[j].done <= s.calls[c].deadline
  }

  /** The promise holds of all runs if and only if the loop is never behind a due timer. */
  lemma DeadlineHoldsIffLoopIsPunctual(late: nat)
    ensures (forall steps, c :: MeetsDeadline(steps, c, late)) <==> late == 0
  {
    hide IsRun, Execute, NoLater, SaysYes;
    forall steps, c | late == 0 ensures MeetsDeadline(steps, c, late) {
      if IsRun(INIT, steps) && NoLater(INIT, steps, late) && SaysYes(Execute(INIT, steps), c) {
        TrueMeansFinishedTrue(steps, c, late);
      }
    }
    if late > 0 {
      LateTimerLetsLateAnswerThrough(1, late);
      assert !MeetsDeadline(LateRun(1, late), 0, late) by { LateYes(1, late); }
    }
  }

  /** A predicate that finishes `late` after the deadline, in a loop that is that far behind. */
  function LateRun(timeout: int, late: nat): seq<Step> {
    [Begin(timeout), Submit(0), Run(0), Tick(timeout + late), Finish(0, Yes), Settle(0), Resume(0)]
  }

  lemma LateYes(timeout: int, late: nat)
    requires timeout > 0 && IsRun(INIT, LateRun(timeout, late))
    requires Execute(INIT, LateRun(timeout, late)).calls == [Call(timeout, Answered(0, Yes))]
    ensures SaysYes(Execute(INIT, LateRun(timeout, late)), 0)
  {
    hide IsRun, Execute, LateRun;
  }

  /** For every timeout and every lateness of the loop there is a run in which a predicate that finished that much
      after the deadline answers true. */
  lemma LateTimerLetsLateAnswerThrough(timeout: int, late: nat)
    requires timeout > 0
    ensures var steps := LateRun(timeout, late);
            && IsRun(INIT, steps) && NoLater(INIT, steps, late)
            && Execute(INIT, steps).calls == [Call(timeout, Answered(0, Yes))]
            && Execute(INIT, steps).jobs == [Settled(Yes, timeout + late, timeout + late)]
  {
    hide *;
    var rest := [Finish(0, Yes), Settle(0), Resume(0)];
    var s3 := State(0, MAX_WORKERS - 1, [Call(timeout, Awaiting(0))], [Running]);
    var t := timeout + late;
    RunsUntilLate(timeout, late);
    LateAnswer(timeout, late);
    ClockPasses(s3, timeout, late, rest);
    MoreSteps(s3, [Tick(t)] + rest, late);
    Joined(INIT, [Begin(timeout), Submit(0), Run(0)], [Tick(t)] + rest, late);
    LateRunParts(timeout, late);
  }

  lemma LateRunParts(timeout: int, late: nat)
    ensures LateRun(timeout, late) ==
            [Begin(timeout), Submit(0), Run(0)] + ([Tick(timeout + late)] + [Finish(0, Yes), Settle(0), Resume(0)])
  {
  }

  // A step keeps to the bound on lateness.
  predicate Prompt(s: State, step: Step, late: nat) {
    step.Tick? ==> forall c :: 0 <= c < |s.calls| && s.calls[c].phase.Awaiting? ==> step.t <= s.calls[c].deadline + late
  }

  lemma ClockPasses(s: State, timeout: int, late: nat, rest: seq<Step>)
    requires s.calls == [Call(timeout, Awaiting(0))] && timeout + late >= s.now
    ensures var tick := Tick(timeout + late);
            && Enabled(s, tick) && Next(s, tick) == s.(now := timeout + late) && Prompt(s, tick, late)
            && ([tick] + rest)[0] == tick && ([tick] + rest)[1..] == rest
  {
  }

  lemma RunsUntilLate(timeout: int, late: nat)
    requires 0 < timeout
    ensures var steps := [Begin(timeout), Submit(0), Run(0)];
            && IsRun(INIT, steps) && NoLater(INIT, steps, late)
            && Execute(INIT, steps) == State(0, MAX_WORKERS - 1, [Call(timeout, Awaiting(0))], [Running])
  {
    hide IsRun, Execute, CancelPending, NoLater;
    var s1 := Next(INIT, Begin(timeout));
    assert s1.calls == [Call(timeout, Holding)];
    var s2 := Next(s1, Submit(0));
    assert s2.calls == [Call(timeout, Awaiting(0))] && s2.jobs == [Pending];
    LastStep(s2, Run(0), late);
    MoreSteps(s1, [Submit(0), Run(0)], late);
    MoreSteps(INIT, [Begin(timeout), Submit(0), Run(0)], late);
    assert s2.jobs[0 := Running] == [Running];
  }

  lemma LateAnswer(timeout: int, late: nat)
    ensures var s := State(timeout + late, MAX_WORKERS - 1, [Call(timeout, Awaiting(0))], [Running]);
            var steps := [Finish(0, Yes), Settle(0), Resume(0)];
            && IsRun(s, steps) && NoLater(s, steps, late)
            && Execute(s, steps) == State(timeout + late, MAX_WORKERS, [Call(timeout, Answered(0, Yes))],
                                          [Settled(Yes, timeout + late, timeout + late)])
  {
    hide IsRun, Execute, CancelPending, NoLater;
    var t := timeout + late;
    var s := State(t, MAX_WORKERS - 1, [Call(timeout, Awaiting(0))], [Running]);
    var s1 := Next(s, Finish(0, Yes));
    assert s1.jobs == [Finished(Yes, t)];
    var s2 := Next(s1, Settle(0));
    assert s2.jobs == [Settled(Yes, t, t)];
    LastStep(s2, Resume(0), late);
    MoreSteps(s1, [Settle(0), Resume(0)], late);
    MoreSteps(s, [Finish(0, Yes), Settle(0), Resume(0)], late);
    assert s2.calls[0 := Call(timeout, Answered(0, Yes))] == [Call(timeout, Answered(0, Yes))];
  }

  lemma {:induction false} Joined(s: State, a: seq<Step>, b: seq<Step>, late: nat)
    requires IsRun(s, a) && IsRun(Execute(s, a), b) && NoLater(s, a, late) && NoLater(Execute(s, a), b, late)
    ensures IsRun(s, a + b) && NoLater(s, a + b, late) && Execute(s, a + b) == Execute(Execute(s, a), b)
    decreases |a|
  {
    hide Next, Enabled;
    if a == [] {
      assert a + b == b;
    } else {
      assert (a + b)[1..] == a[1..] + b && (a + b)[0] == a[0];
      Joined(Next(s, a[0]), a[1..], b, late);
    }
  }

  lemma LastStep(s: State, step: Step, late: nat)
    requires Enabled(s, step) && Prompt(s, step, late)
    ensures IsRun(s, [step]) && NoLater(s, [step], late) && Execute(s, [step]) == Next(s, step)
  {
    assert [step][1..] == [];
    assert IsRun(Next(s, step), []);
  }

  lemma MoreSteps(s: State, steps: seq<Step>, late: nat)
    requires steps != [] && Enabled(s, steps[0]) && Prompt(s, steps[0], late)
    requires IsRun(Next(s, steps[0]), steps[1..]) && NoLater(Next(s, steps[0]), steps[1..], late)
    ensures IsRun(s, steps) && NoLater(s, steps, late)
    ensures Execute(s, steps) == Execute(Next(s, steps[0]), steps[1..])
  {
  }
}
