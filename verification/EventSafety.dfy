/** What holds in every reachable state of the event protocol: the ring is the end of the history, no wake-up is
    lost, fabric subscriptions follow demand, and every handle is unsubscribed once. */
module EventSafety {
  import opened Sequences
  import opened EventManager
  import opened EventProtocol

  // ----- the ring -----

  ghost predicate RingIsRecent(s: System) {
    forall d :: Recent(s.tables, d) == LastN(History(s, d), RECENT_EVENTS_LIMIT)
  }

  lemma LastNOfAppend<T>(s: seq<T>, e: T, n: nat)
    requires n > 0
    ensures LastN(LastN(s, n) + [e], n) == LastN(s + [e], n)
  {
  }

  lemma RecordRing(s: System, i: nat)
    requires RingIsRecent(s) && i < |s.arrived|
    ensures RingIsRecent(Recorded(s, i))
  {
    hide LastN;
    var t, e := Recorded(s, i), s.arrived[i];
    LastNOfAppend(History(s, e.device), e, RECENT_EVENTS_LIMIT);
    forall d ensures Recent(t.tables, d) == LastN(History(t, d), RECENT_EVENTS_LIMIT) {
      assert Recent(s.tables, d) == LastN(History(s, d), RECENT_EVENTS_LIMIT);
    }
  }

  lemma SameRing(s: System, t: System)
    requires RingIsRecent(s) && t.tables.recent == s.tables.recent && t.history == s.history
    ensures RingIsRecent(t)
  {
    forall d ensures Recent(t.tables, d) == LastN(History(t, d), RECENT_EVENTS_LIMIT) {
      assert Recent(s.tables, d) == LastN(History(s, d), RECENT_EVENTS_LIMIT);
    }
  }

  lemma RingKept(s: System, step: Step)
    requires RingIsRecent(s) && Enabled(s, step)
    ensures RingIsRecent(Apply(s, step))
  {
    hide RingIsRecent, Apply, Recorded;
    if step.Record? {
      RecordRing(s, step.i);
      RecordIs(s, step.i);
    } else {
      OnlyRecordWrites(s, step);
      SameRing(s, Apply(s, step));
    }
  }

  lemma RecordIs(s: System, i: nat)
    requires Enabled(s, Record(i))
    ensures Apply(s, Record(i)) == Recorded(s, i)
  {
    hide Recorded;
  }

  ghost predicate SameRecord(s: System, t: System) {
    t.history == s.history && t.tables.recent == s.tables.recent
  }

  ghost predicate SameNews(s: System, t: System) {
    t.arrived == s.arrived && t.tables.latest == s.tables.latest
  }

  lemma WaitedWritesNothing(s: System, d: DeviceId, w: Wanted)
    ensures SameRecord(s, Waited(s, d, w)) && SameNews(s, Waited(s, d, w))
  {
    hide Newest, Waiters, Recent, History;
  }

  lemma StartedWritesNothing(s: System)
    requires s.lock.Starting?
    ensures SameRecord(s, Started(s)) && SameNews(s, Started(s))
  {
    hide Waiters, History;
  }

  lemma CleanedUpWritesNothing(s: System, q: QueueId)
    requires q in s.calls && s.calls[q].phase.Leaving?
    ensures SameRecord(s, CleanedUp(s, q)) && SameNews(s, CleanedUp(s, q))
  {
    hide WithoutWaiter, Dropped;
  }

  /** Of the steps that concern a call or a start, none writes history, rings or latest events. */
  lemma CallsWriteNothing(s: System, step: Step)
    requires Enabled(s, step)
    requires step.Wait? || step.StartOk? || step.StartFail? || step.Take? || step.Timeout? || step.Cleanup? ||
             step.Close?
    ensures SameRecord(s, Apply(s, step)) && SameNews(s, Apply(s, step))
  {
    hide Waited, Started, CleanedUp, TakeOne, Dropped;
    match step
    case Wait(d, w) => WaitedWritesNothing(s, d, w);
    case StartOk => StartedWritesNothing(s);
    case Cleanup(q) => CleanedUpWritesNothing(s, q);
    case _ =>
  }

  /** No other step but recording touches history and rings; none but an arrival touches the latest events. */
  lemma OnlyRecordWrites(s: System, step: Step)
    requires Enabled(s, step) && !step.Record?
    ensures SameRecord(s, Apply(s, step)) && (!step.Arrive? ==> SameNews(s, Apply(s, step)))
  {
    hide PutAll, WithoutSubscriber, Waited, Started, Took, CleanedUp, ClosedDown, Recorded, Without, SameNews,
      SameRecord;
    match step
    case Subscribe(_, _) => OthersWriteNothing(s, step);
    case Unsubscribe(_, _) => OthersWriteNothing(s, step);
    case Ensure(_) => OthersWriteNothing(s, step);
    case Arrive(_) => OthersWriteNothing(s, step);
    case Deliver(_) => OthersWriteNothing(s, step);
    case Retire(_) => OthersWriteNothing(s, step);
    case _ => CallsWriteNothing(s, step);
  }

  lemma OthersWriteNothing(s: System, step: Step)
    requires Enabled(s, step)
    requires step.Subscribe? || step.Unsubscribe? || step.Ensure? || step.Arrive? || step.Deliver? || step.Retire?
    ensures SameRecord(s, Apply(s, step)) && (!step.Arrive? ==> SameNews(s, Apply(s, step)))
  {
    hide PutAll, WithoutSubscriber, Without;
  }

  // ----- conservation -----

  function End(s: System, w: Waiter): nat {
    if w.till.Some? then w.till.value else |History(s, w.device)|
  }

  /** What the handlers in flight have still to put into a queue. */
  ghost function Owed(inflight: seq<Delivery>, q: QueueId): multiset<Event> {
    if inflight == [] then multiset{}
    else (if q in inflight[0].queues then multiset{inflight[0].event} else multiset{}) + Owed(inflight[1..], q)
  }

  /** The events recorded while a call was registered. */
  ghost predicate InWindow(s: System, w: Waiter) {
    w.from <= End(s, w) <= |History(s, w.device)|
  }

  ghost function Window(s: System, w: Waiter): seq<Event>
    requires InWindow(s, w)
  {
    History(s, w.device)[w.from..End(s, w)]
  }

  /** Recorded while registered = taken + queued + still to be put. */
  ghost predicate Balanced(window: seq<Event>, taken: seq<Event>, queue: seq<Event>, owed: multiset<Event>) {
    multiset(window) == multiset(taken) + multiset(queue) + owed
  }

  ghost predicate ConservedFor(s: System, q: QueueId)
    requires q in s.calls
  {
    var w := s.calls[q];
    InWindow(s, w) && Balanced(Window(s, w), w.taken, w.queue, Owed(s.inflight, q))
  }

  lemma BalancedTake(window: seq<Event>, taken: seq<Event>, queue: seq<Event>, owed: multiset<Event>)
    requires Balanced(window, taken, queue, owed) && queue != []
    ensures Balanced(window, taken + [queue[0]], queue[1..], owed)
  {
    assert queue == [queue[0]] + queue[1..];
    assert multiset(queue) == multiset{queue[0]} + multiset(queue[1..]);
  }

  lemma BalancedRecord(window: seq<Event>, taken: seq<Event>, queue: seq<Event>, owed: multiset<Event>, e: Event)
    requires Balanced(window, taken, queue, owed)
    ensures Balanced(window + [e], taken, queue, owed + multiset{e})
  {
  }

  lemma BalancedPut(window: seq<Event>, taken: seq<Event>, queue: seq<Event>, owed: multiset<Event>, e: Event)
    requires Balanced(window, taken, queue, owed + multiset{e})
    ensures Balanced(window, taken, queue + [e], owed)
  {
  }

  ghost predicate Conserved(s: System) {
    forall q :: q in s.calls ==> ConservedFor(s, q)
  }

  lemma {:induction false} OwedAppend(inflight: seq<Delivery>, dl: Delivery, q: QueueId)
    ensures Owed(inflight + [dl], q) ==
            Owed(inflight, q) + (if q in dl.queues then multiset{dl.event} else multiset{})
  {
    if inflight == [] {
      assert inflight + [dl] == [dl] && [dl][1..] == [];
    } else {
      assert (inflight + [dl])[1..] == inflight[1..] + [dl];
      OwedAppend(inflight[1..], dl, q);
    }
  }

  lemma {:induction false} OwedWithout(inflight: seq<Delivery>, i: nat, q: QueueId)
    requires i < |inflight|
    ensures Owed(inflight, q) == Owed(Without(inflight, i), q) +
            (if q in inflight[i].queues then multiset{inflight[i].event} else multiset{})
  {
    if i > 0 {
      assert Without(inflight, i)[1..] == Without(inflight[1..], i - 1);
      OwedWithout(inflight[1..], i - 1, q);
    } else {
      assert Without(inflight, 0) == inflight[1..];
    }
  }

  lemma {:induction false} OwedNothing(inflight: seq<Delivery>, q: QueueId)
    requires forall k :: 0 <= k < |inflight| ==> q !in inflight[k].queues
    ensures Owed(inflight, q) == multiset{}
  {
    if inflight == [] {
    } else {
      OwedNothing(inflight[1..], q);
    }
  }

  lemma RegisterConserved(s: System, d: DeviceId, w: Wanted)
    requires Registered(s) && Conserved(s)
    ensures Conserved(Register(s, d, w))
  {
    hide Owed, Registered;
    var t, q := Register(s, d, w), s.nextQueue;
    FreshQueue(s);
    OwedNothing(s.inflight, q);
    assert ConservedFor(t, q) by { assert Window(t, t.calls[q]) == []; }
    hide Balanced;
    forall x | x in s.calls ensures ConservedFor(t, x) {
      assert ConservedFor(s, x) && Window(t, t.calls[x]) == Window(s, s.calls[x]);
    }
  }

  lemma FreshQueue(s: System)
    requires Registered(s)
    ensures s.nextQueue !in s.calls && forall k :: 0 <= k < |s.inflight| ==> s.nextQueue !in s.inflight[k].queues
  {
  }

  lemma TakeConserved(s: System, q: QueueId)
    requires Conserved(s) && q in s.calls && s.calls[q].queue != []
    ensures Conserved(Took(s, q))
  {
    hide Matches, Owed, Balanced;
    var t, w := Took(s, q), s.calls[q];
    forall x | x in s.calls ensures ConservedFor(t, x) {
      assert ConservedFor(s, x) && Window(t, t.calls[x]) == Window(s, s.calls[x]);
      if x == q { BalancedTake(Window(s, w), w.taken, w.queue, Owed(s.inflight, q)); }
    }
  }

  /** A handler for a device reads off the queues of exactly the calls registered for it. */
  lemma WhoHears(s: System, d: DeviceId, q: QueueId)
    requires Registered(s) && q in s.calls
    ensures q in Waiters(s.tables, d) <==> s.calls[q].till.None? && s.calls[q].device == d
  {
  }

  lemma SliceAppend<T>(h: seq<T>, e: T, from: nat)
    requires from <= |h|
    ensures (h + [e])[from..|h| + 1] == h[from..|h|] + [e]
  {
  }

  /** Recording an event adds it to the window of exactly the calls registered for its device, and to what handlers
      owe them. */
  lemma RecordMoves(s: System, i: nat, q: QueueId)
    requires Registered(s) && i < |s.arrived| && q in s.calls && InWindow(s, s.calls[q])
    ensures var t, e, w := Recorded(s, i), s.arrived[i], s.calls[q];
            && t.calls == s.calls && InWindow(t, w)
            && if w.till.None? && w.device == e.device then
                 Window(t, w) == Window(s, w) + [e] && Owed(t.inflight, q) == Owed(s.inflight, q) + multiset{e}
               else
                 Window(t, w) == Window(s, w) && Owed(t.inflight, q) == Owed(s.inflight, q)
  {
    hide Registered, Matches, LastN, Owed, Waiters, Without;
    var t, e, w := Recorded(s, i), s.arrived[i], s.calls[q];
    OwedAppend(s.inflight, Delivery(e, Waiters(s.tables, e.device)), q);
    WhoHears(s, e.device, q);
    if w.till.None? && w.device == e.device {
      assert History(t, w.device) == History(s, w.device) + [e];
      SliceAppend(History(s, w.device), e, w.from);
    } else {
      assert Owed(s.inflight, q) + multiset{} == Owed(s.inflight, q);
    }
  }

  lemma RecordConservedFor(s: System, i: nat, q: QueueId)
    requires Registered(s) && i < |s.arrived| && q in s.calls && ConservedFor(s, q)
    ensures ConservedFor(Recorded(s, i), q)
  {
    hide Registered, Owed, Balanced, InWindow, Recorded, Window;
    var e, w := s.arrived[i], s.calls[q];
    RecordMoves(s, i, q);
    if w.till.None? && w.device == e.device {
      BalancedRecord(Window(s, w), w.taken, w.queue, Owed(s.inflight, q), e);
    }
  }

  lemma RecordConserved(s: System, i: nat)
    requires Registered(s) && Conserved(s) && i < |s.arrived|
    ensures Conserved(Recorded(s, i))
  {
    hide ConservedFor, Registered, Owed;
    forall q | q in s.calls ensures ConservedFor(Recorded(s, i), q) { RecordConservedFor(s, i, q); }
  }

  /** A delivery takes the event off what handlers owe and puts it at the end of exactly the queues read off. */
  lemma DeliverMoves(s: System, i: nat, q: QueueId)
    requires Registered(s) && i < |s.inflight| && q in s.calls
    ensures var t, dl := Delivered(s, i), s.inflight[i];
            && t.calls.Keys == s.calls.Keys
            && if q in dl.queues then
                 && t.calls[q] == s.calls[q].(queue := s.calls[q].queue + [dl.event])
                 && Owed(s.inflight, q) == Owed(t.inflight, q) + multiset{dl.event}
               else
                 t.calls[q] == s.calls[q] && Owed(s.inflight, q) == Owed(t.inflight, q)
  {
    hide Owed, PutAll, Tidy, Listed, Without;
    var dl := s.inflight[i];
    PutAllFrame(s.calls, dl.queues, dl.event);
    OwedWithout(s.inflight, i, q);
    assert Owed(Without(s.inflight, i), q) + multiset{} == Owed(Without(s.inflight, i), q);
  }

  lemma DeliverConserved(s: System, i: nat)
    requires Registered(s) && Conserved(s) && i < |s.inflight|
    ensures Conserved(Delivered(s, i))
  {
    hide Owed, Balanced, PutAll, Registered;
    var t, dl := Delivered(s, i), s.inflight[i];
    forall q | q in t.calls ensures ConservedFor(t, q) {
      DeliverMoves(s, i, q) by { DeliverKeys(s, i); }
      var w := s.calls[q];
      assert ConservedFor(s, q) && Window(t, t.calls[q]) == Window(s, w);
      if q in dl.queues { BalancedPut(Window(s, w), w.taken, w.queue, Owed(t.inflight, q), dl.event); }
    }
  }

  lemma DeliverKeys(s: System, i: nat)
    requires Registered(s) && i < |s.inflight|
    ensures Delivered(s, i).calls.Keys == s.calls.Keys
  {
    hide PutAll, Tidy, Listed;
    PutAllFrame(s.calls, s.inflight[i].queues, s.inflight[i].event);
  }

  /** Steps that touch neither queues nor history, though they may drop calls from the table. */
  lemma QuietConserved(s: System, t: System)
    requires Conserved(s) && t.history == s.history && t.inflight == s.inflight && t.calls.Keys == s.calls.Keys
    requires forall q :: q in s.calls ==>
      && t.calls[q].device == s.calls[q].device && t.calls[q].from == s.calls[q].from
      && t.calls[q].queue == s.calls[q].queue && t.calls[q].taken == s.calls[q].taken
      && End(t, t.calls[q]) == End(s, s.calls[q])
    ensures Conserved(t)
  {
    forall q | q in s.calls ensures ConservedFor(t, q) { assert ConservedFor(s, q); }
  }

  lemma SameCallsConserved(s: System, t: System)
    requires Conserved(s) && t.history == s.history && t.inflight == s.inflight && t.calls == s.calls
    ensures Conserved(t)
  {
    hide Balanced, Owed;
    QuietConserved(s, t);
  }

  lemma RegisteredTables(s: System, t: System)
    requires Registered(s) && t.calls == s.calls && t.inflight == s.inflight && t.nextQueue == s.nextQueue
    requires t.tables.waiters == s.tables.waiters && t.tables.subscribers == s.tables.subscribers
    ensures Registered(t)
  {
  }

  lemma StartConserved(s: System, step: Step)
    requires Registered(s) && Conserved(s) && Enabled(s, step) && (step.Wait? || step.StartOk?)
    ensures Conserved(Apply(s, step))
  {
    hide Registered, Conserved, Newest, Register, Waiters, Recent;
    match step
    case Wait(d, w) =>
      if Waited(s, d, w) == Register(s, d, w) {
        RegisterConserved(s, d, w);
      } else {
        SameCallsConserved(s, Waited(s, d, w));
      }
    case StartOk =>
      SameCallsConserved(s, Stored(s));
      RegisteredTables(s, Stored(s));
      if s.lock.purpose.ForWaiter? { RegisterConserved(Stored(s), s.lock.device, s.lock.purpose.wanted); }
  }

  lemma EndConserved(s: System, step: Step)
    requires Conserved(s) && Enabled(s, step) && (step.Timeout? || step.Cleanup? || step.Close?)
    ensures Conserved(Apply(s, step))
  {
    hide Conserved, WithoutWaiter;
    QuietConserved(s, Apply(s, step));
  }

  lemma OtherConserved(s: System, step: Step)
    requires Conserved(s) && Enabled(s, step)
    requires step.Subscribe? || step.Unsubscribe? || step.Ensure? || step.StartFail? || step.Arrive? || step.Retire?
    ensures Conserved(Apply(s, step))
  {
    hide Conserved, WithoutSubscriber;
    SameCallsConserved(s, Apply(s, step));
  }

  lemma ConservedKept(s: System, step: Step)
    requires Registered(s) && Conserved(s) && Enabled(s, step)
    ensures Conserved(Apply(s, step))
  {
    hide Registered, Conserved, Took, Recorded, Delivered, Waited, Started, CleanedUp, ClosedDown;
    if step.Take? {
      TakeConserved(s, step.q);
    } else if step.Record? {
      RecordConserved(s, step.i);
    } else if step.Deliver? {
      DeliverConserved(s, step.i);
    } else if step.Wait? || step.StartOk? {
      StartConserved(s, step);
    } else if step.Timeout? || step.Cleanup? || step.Close? {
      EndConserved(s, step);
    } else {
      OtherConserved(s, step);
    }
  }
}
