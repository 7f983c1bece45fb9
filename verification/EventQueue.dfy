/** The device's outgoing event queue: a bounded queue that drops its oldest event, and a dispatcher that retries. */
module EventQueue {
  import opened Sequences
  import opened Text

  datatype Message = Message(subject: string, payload: string)

  const CAPACITY: nat := 10000
  const MAX_DELAY: nat := 30

  /** The queue, the event the dispatcher holds, and its retry delay in seconds. */
  datatype Outbox = Outbox(queued: seq<Message>, inflight: Option<Message>, delay: nat)

  const EMPTY := Outbox([], None, 1)

  function Enqueued(b: Outbox, m: Message): Outbox {
    b.(queued := (if |b.queued| < CAPACITY then b.queued else b.queued[1..]) + [m])
  }

  function Fetched(b: Outbox): Outbox
    requires b.inflight.None? && b.queued != []
  {
    Outbox(b.queued[1..], Some(b.queued[0]), 1)
  }

  function Retried(b: Outbox): Outbox {
    b.(delay := if b.delay * 2 < MAX_DELAY then b.delay * 2 else MAX_DELAY)
  }

  function Sent(b: Outbox): Outbox {
    b.(inflight := None, delay := 1)
  }

  /** Each method is one region between two awaits. */
  class Dispatcher {
    var queue: seq<Message>
    var held: Option<Message>
    var delay: nat

    ghost function State(): Outbox
      reads this
    {
      Outbox(queue, held, delay)
    }

    constructor ()
      ensures State() == EMPTY
    {
      queue, held, delay := [], None, 1;
    }

    /** `put_nowait` of a queue with a size limit. */
    method PutNowait(m: Message) returns (full: bool)
      modifies this
      ensures full <==> |old(queue)| >= CAPACITY
      ensures State() == if full then old(State()) else old(State()).(queued := old(queue) + [m])
    {
      full := |queue| >= CAPACITY;
      if !full { queue := queue + [m]; }
    }

    /** `enqueue_event`: when the queue is full its oldest event makes room. */
    method EnqueueEvent(m: Message)
      requires |queue| <= CAPACITY
      modifies this
      ensures State() == Enqueued(old(State()), m)
    {
      var full := PutNowait(m);
      if full {
        if queue != [] { queue := queue[1..]; }
        full := PutNowait(m);
      }
    }

    /** The dispatch loop takes the next event. */
    method Fetch()
      requires held.None? && queue != []
      modifies this
      ensures State() == Fetched(old(State()))
    {
      held, queue, delay := Some(queue[0]), queue[1..], 1;
    }

    /** Publishing failed: wait longer next time. */
    method PublishFailed()
      requires held.Some?
      modifies this
      ensures State() == Retried(old(State()))
    {
      delay := if delay * 2 < MAX_DELAY then delay * 2 else MAX_DELAY;
    }

    method PublishSucceeded()
      requires held.Some?
      modifies this
      ensures State() == Sent(old(State()))
    {
      held, delay := None, 1;
    }
  }

  // ----- runs -----

  datatype Step = Enqueue(m: Message) | Fetch | Fail | Succeed

  /** A run so far: every event enqueued, every event published, the outbox, and the positions among the enqueued
      events of those dropped and of those that are published, held or queued. */
  datatype Run = Run(enqueued: seq<Message>, published: seq<Message>, box: Outbox, dropped: seq<nat>, kept: seq<nat>)

  const START := Run([], [], EMPTY, [], [])

  predicate Enabled(r: Run, step: Step) {
    match step
    case Enqueue(_) => true
    case Fetch => r.box.inflight.None? && r.box.queued != []
    case Fail => r.box.inflight.Some?
    case Succeed => r.box.inflight.Some?
  }

  function Held(b: Outbox): seq<Message> {
    if b.inflight.Some? then [b.inflight.value] else []
  }

  /** The position in `kept` of the oldest queued event. */
  function Front(r: Run): nat {
    |r.published| + |Held(r.box)|
  }

  function Next(r: Run, step: Step): Run
    requires Enabled(r, step)
  {
    match step
    case Enqueue(m) =>
      var f, newest := Front(r), |r.enqueued|;
      var full := |r.box.queued| >= CAPACITY && f < |r.kept|;
      r.(enqueued := r.enqueued + [m], box := Enqueued(r.box, m),
         dropped := if full then r.dropped + [r.kept[f]] else r.dropped,
         kept := (if full then Without(r.kept, f) else r.kept) + [newest])
    case Fetch => r.(box := Fetched(r.box))
    case Fail => r.(box := Retried(r.box))
    case Succeed => r.(published := r.published + [r.box.inflight.value], box := Sent(r.box))
  }

  predicate IsRun(r: Run, steps: seq<Step>)
    decreases |steps|
  {
    steps == [] || (Enabled(r, steps[0]) && IsRun(Next(r, steps[0]), steps[1..]))
  }

  function Execute(r: Run, steps: seq<Step>): Run
    requires IsRun(r, steps)
    decreases |steps|
  {
    if steps == [] then r else Execute(Next(r, steps[0]), steps[1..])
  }

  // ----- conservation -----

  ghost predicate Increasing(s: seq<nat>, bound: nat) {
    && (forall i, j :: 0 <= i < j < |s| ==> s[i] < s[j])
    && forall i :: 0 <= i < |s| ==> s[i] < bound
  }

  /** The kept events, in the order in which they were enqueued, are those published, held and queued. */
  ghost predicate KeptAreThere(r: Run) {
    var line := r.published + Held(r.box) + r.box.queued;
    |line| == |r.kept| && forall i :: 0 <= i < |line| ==> r.kept[i] < |r.enqueued| && line[i] == r.enqueued[r.kept[i]]
  }

  /** Of `n` events each is either kept or dropped, and those dropped are older than all kept from place `f` on. */
  ghost predicate Divided(kept: seq<nat>, dropped: seq<nat>, n: nat, f: nat) {
    && Increasing(kept, n) && Increasing(dropped, n)
    && |kept| + |dropped| == n
    && (forall i, j :: 0 <= i < |kept| && 0 <= j < |dropped| ==> kept[i] != dropped[j])
    && (forall i, j :: f <= i < |kept| && 0 <= j < |dropped| ==> dropped[j] < kept[i])
  }

  ghost predicate Accounted(r: Run) {
    Divided(r.kept, r.dropped, |r.enqueued|, Front(r))
  }

  ghost predicate Conserved(r: Run) {
    && KeptAreThere(r) && Accounted(r)
    && |r.box.queued| <= CAPACITY
    && 1 <= r.box.delay <= MAX_DELAY
  }

  lemma OldestOut(sent: seq<Message>, queued: seq<Message>, m: Message)
    requires queued != []
    ensures sent + (queued[1..] + [m]) == Without(sent + queued, |sent|) + [m]
  {
  }

  lemma EnqueueThere(r: Run, m: Message)
    requires Conserved(r)
    ensures KeptAreThere(Next(r, Enqueue(m)))
  {
    hide Accounted;
    var t, f := Next(r, Enqueue(m)), Front(r);
    var sent := r.published + Held(r.box);
    if |r.box.queued| >= CAPACITY {
      OldestOut(sent, r.box.queued, m);
      assert t.kept == Without(r.kept, f) + [|r.enqueued|];
    } else {
      assert sent + (r.box.queued + [m]) == sent + r.box.queued + [m];
    }
  }

  lemma DividedAppend(kept: seq<nat>, dropped: seq<nat>, n: nat, f: nat)
    requires Divided(kept, dropped, n, f)
    ensures Divided(kept + [n], dropped, n + 1, f)
  {
  }

  lemma DividedDrop(kept: seq<nat>, dropped: seq<nat>, n: nat, f: nat)
    requires Divided(kept, dropped, n, f) && f < |kept|
    ensures Divided(Without(kept, f), dropped + [kept[f]], n, f)
  {
    var kept', dropped' := Without(kept, f), dropped + [kept[f]];
    assert Increasing(kept', n) && Increasing(dropped', n);
    forall i, j | 0 <= i < |kept'| && 0 <= j < |dropped'|
      ensures kept'[i] != dropped'[j] && (i >= f ==> dropped'[j] < kept'[i])
    {
      if j < |dropped| { assert dropped'[j] == dropped[j]; }
    }
  }

  lemma EnqueueAccounted(r: Run, m: Message)
    requires Conserved(r)
    ensures Accounted(Next(r, Enqueue(m)))
  {
    hide Divided;
    var f, n := Front(r), |r.enqueued|;
    if |r.box.queued| >= CAPACITY && f < |r.kept| {
      DividedDrop(r.kept, r.dropped, n, f);
      DividedAppend(Without(r.kept, f), r.dropped + [r.kept[f]], n, f);
    } else {
      DividedAppend(r.kept, r.dropped, n, f);
    }
  }

  lemma NextKeeps(r: Run, step: Step)
    requires Conserved(r) && Enabled(r, step)
    ensures Conserved(Next(r, step))
  {
    match step
    case Enqueue(m) =>
      EnqueueThere(r, m);
      EnqueueAccounted(r, m);
    case Fetch =>
      var t := Next(r, step);
      assert t.published + Held(t.box) + t.box.queued == r.published + Held(r.box) + r.box.queued;
    case Fail =>
    case Succeed =>
      var t := Next(r, step);
      assert t.published + Held(t.box) + t.box.queued == r.published + Held(r.box) + r.box.queued;
  }

  lemma {:induction false} RunKeeps(r: Run, steps: seq<Step>)
    requires Conserved(r) && IsRun(r, steps)
    ensures Conserved(Execute(r, steps))
    decreases |steps|
  {
    hide Conserved, Next;
    if steps == [] {
    } else {
      NextKeeps(r, steps[0]);
      RunKeeps(Next(r, steps[0]), steps[1..]);
    }
  }

  /** Over every run: the queue keeps to its limit, what is published, held and queued is in the order in which it
      was enqueued, and the only events missing are those dropped. */
  lemma EventsAreConserved(steps: seq<Step>)
    requires IsRun(START, steps)
    ensures var r := Execute(START, steps);
            && |r.box.queued| <= 10000
            && KeptAreThere(r) && Accounted(r)
            && (r.dropped == [] ==> r.published + Held(r.box) + r.box.queued == r.enqueued)
  {
    hide Next, Execute, IsRun;
    RunKeeps(START, steps);
    var r := Execute(START, steps);
    if r.dropped == [] { NothingDropped(r); }
  }

  lemma NothingDropped(r: Run)
    requires KeptAreThere(r) && Accounted(r) && r.dropped == []
    ensures r.published + Held(r.box) + r.box.queued == r.enqueued
  {
    forall i | 0 <= i < |r.kept| ensures r.kept[i] == i { Filled(r.kept, |r.enqueued|, i); }
  }

  /** An increasing sequence of n numbers below n holds each at its own place. */
  lemma {:induction false} Filled(s: seq<nat>, n: nat, i: nat)
    requires Increasing(s, n) && |s| == n && i < n
    ensures s[i] == i
  {
    AtLeast(s, n, i);
    AtMost(s, n, i);
  }

  lemma {:induction false} AtLeast(s: seq<nat>, n: nat, i: nat)
    requires Increasing(s, n) && i < |s|
    ensures s[i] >= i
  {
    if i > 0 { AtLeast(s, n, i - 1); }
  }

  lemma {:induction false} AtMost(s: seq<nat>, n: nat, i: nat)
    requires Increasing(s, n) && |s| == n && i < n
    ensures s[i] <= i
    decreases n - i
  {
    if i + 1 < n { AtMost(s, n, i + 1); }
  }

  /** The dispatcher can always go on: it publishes the event it holds, or takes the oldest one queued and publishes
      that. */
  lemma NextIsPublished(r: Run)
    requires r.box.inflight.Some? || r.box.queued != []
    ensures var m := if r.box.inflight.Some? then r.box.inflight.value else r.box.queued[0];
            var steps := if r.box.inflight.Some? then [Succeed] else [Fetch, Succeed];
            IsRun(r, steps) && Execute(r, steps).published == r.published + [m] && Execute(r, steps).box.inflight.None?
  {
    var r1 := if r.box.inflight.Some? then r else Next(r, Fetch);
    assert [Succeed][1..] == [] && [Fetch, Succeed][1..] == [Succeed];
    assert IsRun(Next(r1, Succeed), []);
    assert IsRun(r1, [Succeed]) && Execute(r1, [Succeed]) == Next(r1, Succeed);
  }

  // ----- the retry delay -----

  /** How often publishing has failed since the dispatcher took the event it holds, or since the start: `n` times before
      these steps. */
  function Failures(n: nat, steps: seq<Step>): nat
    decreases |steps|
  {
    if steps == [] then n
    else
      match steps[0]
      case Fail => Failures(n + 1, steps[1..])
      case Enqueue(_) => Failures(n, steps[1..])
      case _ => Failures(0, steps[1..])
  }

  function Doubled(n: nat): nat {
    if n == 0 then 1 else 2 * Doubled(n - 1)
  }

  function Backoff(n: nat): nat {
    if Doubled(n) < 30 then Doubled(n) else 30
  }

  lemma {:induction false} RunsBackOff(r: Run, steps: seq<Step>, n: nat)
    requires IsRun(r, steps) && r.box.delay == Backoff(n)
    ensures Execute(r, steps).box.delay == Backoff(Failures(n, steps))
    decreases |steps|
  {
    hide Doubled;
    if steps == [] {
    } else {
      DoublesOnce(n);
      var m := if steps[0].Fail? then n + 1 else if steps[0].Enqueue? then n else 0;
      RunsBackOff(Next(r, steps[0]), steps[1..], m);
    }
  }

  lemma DoublesOnce(n: nat)
    ensures Doubled(0) == 1 && Doubled(n + 1) == 2 * Doubled(n)
  {
  }

  /** Over every run, the delay before the next try is one second doubled at each failure since the event was taken, and
      never above thirty. */
  lemma DelayDoubles(steps: seq<Step>)
    requires IsRun(START, steps)
    ensures Execute(START, steps).box.delay == Backoff(Failures(0, steps))
  {
    hide Execute, IsRun;
    DoublesOnce(0);
    RunsBackOff(START, steps, 0);
  }

  /** A step drops at most one event, only from a full queue, and then the oldest queued one; the event held by the
      dispatcher is never dropped. */
  lemma OnlyTheOldestIsDropped(steps: seq<Step>, step: Step)
    requires IsRun(START, steps) && Enabled(Execute(START, steps), step)
    ensures var r := Execute(START, steps);
            var t := Next(r, step);
            && r.dropped <= t.dropped && |t.dropped| <= |r.dropped| + 1
            && (step.Enqueue? ==> t.box.inflight == r.box.inflight)
            && (t.dropped != r.dropped <==> step.Enqueue? && |r.box.queued| == 10000)
            && (t.dropped != r.dropped ==>
                  && Front(r) < |r.kept| && r.kept[Front(r)] < |r.enqueued|
                  && t.dropped == r.dropped + [r.kept[Front(r)]]
                  && r.enqueued[r.kept[Front(r)]] == r.box.queued[0])
  {
    hide Execute, IsRun;
    RunKeeps(START, steps);
    var r := Execute(START, steps);
    assert (r.published + Held(r.box) + r.box.queued)[Front(r)..] == r.box.queued;
  }
}
