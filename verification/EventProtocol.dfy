/** The event subscription manager at work: its lock, the tasks between their awaits, the broker's messages in
    flight, and what holds in every reachable state. */
module EventProtocol {
  import opened Sequences
  import opened Text
  import opened EventManager

  // ----- the system -----

  /** Why the lock is held across the start of a fabric subscription. */
  datatype Purpose = ForSubscriber | ForPin | ForWaiter(wanted: Wanted)

  datatype Lock = Free | Starting(device: DeviceId, purpose: Purpose)

  datatype Phase = Waiting | Leaving(result: Option<Event>) | Left(result: Option<Event>)

  /** One call of `wait_for_event` that registered a queue. `from` and `till` are the positions in the device's
      history at which it was registered and dropped from the table. */
  datatype Waiter = Waiter(
    device: DeviceId, wanted: Wanted, phase: Phase, queue: seq<Event>, taken: seq<Event>, from: nat, till: Option<nat>)

  /** A call of `wait_for_event` answered from the ring when the device's history was `at` long. */
  datatype Instant = Instant(device: DeviceId, wanted: Wanted, at: nat, result: Event)

  /** A handler that has recorded its event and has still to put it into the queues it read off. */
  datatype Delivery = Delivery(event: Event, queues: seq<QueueId>)

  datatype System = System(
    tables: Tables,
    lock: Lock,
    calls: map<QueueId, Waiter>,          // every call that ever registered a queue
    instants: seq<Instant>,               // every call answered from the ring, in order
    arrived: seq<Event>,                  // handlers waiting for the lock, oldest first
    inflight: seq<Delivery>,
    history: map<DeviceId, seq<Event>>,   // all events recorded for a device
    nextQueue: QueueId,
    nextHandle: Handle,
    retiring: set<Handle>,                // taken off the table, not yet unsubscribed
    retired: seq<Handle>,                 // unsubscribed, in order
    startFailed: bool)

  const INIT := System(NO_TABLES, Free, map[], [], [], [], map[], 0, 0, {}, [], false)

  function History(s: System, d: DeviceId): seq<Event> {
    if d in s.history then s.history[d] else []
  }

  datatype Step =
    | Subscribe(d: DeviceId, c: Client)
    | Unsubscribe(d: DeviceId, c: Client)
    | Ensure(d: DeviceId)
    | Wait(d: DeviceId, w: Wanted)
    | StartOk
    | StartFail
    | Take(q: QueueId)
    | Timeout(q: QueueId)
    | Cleanup(q: QueueId)
    | Close
    | Arrive(e: Event)
    | Record(i: nat)
    | Deliver(i: nat)
    | Retire(h: Handle)

  predicate Enabled(s: System, step: Step) {
    match step
    case Subscribe(_, _) => s.lock.Free?
    case Unsubscribe(_, _) => s.lock.Free?
    case Ensure(_) => s.lock.Free?
    case Wait(_, _) => s.lock.Free?
    case StartOk => s.lock.Starting?
    case StartFail => s.lock.Starting?
    case Take(q) => q in s.calls && s.calls[q].phase.Waiting? && s.calls[q].queue != []
    case Timeout(q) => q in s.calls && s.calls[q].phase.Waiting?
    case Cleanup(q) => s.lock.Free? && q in s.calls && s.calls[q].phase.Leaving?
    case Close => s.lock.Free?
    case Arrive(_) => true
    case Record(i) => s.lock.Free? && i < |s.arrived|
    case Deliver(i) => i < |s.inflight|
    case Retire(h) => h in s.retiring
  }

  /** Start the device's fabric subscription if there is none, else go on. */
  function StartIfNeeded(s: System, d: DeviceId, purpose: Purpose): System {
    if d in s.tables.deviceSubs then s else s.(lock := Starting(d, purpose))
  }

  /** A fresh queue enters the table. */
  function Register(s: System, d: DeviceId, w: Wanted): System {
    var q := s.nextQueue;
    s.(tables := WithWaiter(s.tables, d, q),
       calls := s.calls[q := Waiter(d, w, Waiting, [], [], |History(s, d)|, None)],
       nextQueue := q + 1)
  }

  function Retiring(s: System, r: Released): System {
    s.(tables := r.tables, retiring := s.retiring + (if r.handle.Some? then {r.handle.value} else {}))
  }

  /** One item leaves the queue: the call goes on waiting unless it is the event wanted. */
  function TakeOne(w: Waiter): Waiter
    requires w.queue != []
  {
    var e := w.queue[0];
    w.(queue := w.queue[1..], taken := w.taken + [e],
       phase := if Matches(e, w.wanted) then Leaving(Some(e)) else w.phase)
  }

  /** `put_nowait` on each queue in turn. */
  function PutAll(calls: map<QueueId, Waiter>, queues: seq<QueueId>, e: Event): map<QueueId, Waiter> {
    if queues == [] then calls
    else
      var q := queues[0];
      var calls' := if q in calls then calls[q := calls[q].(queue := calls[q].queue + [e])] else calls;
      PutAll(calls', queues[1..], e)
  }

  /** A call's place in the table ends: note how far the history had come. */
  function Dropped(s: System, w: Waiter): Waiter {
    if w.till.None? then w.(till := Some(|History(s, w.device)|)) else w
  }

  function Waited(s: System, d: DeviceId, w: Wanted): System {
    var found := Newest(Recent(s.tables, d), w);
    if found.Some? then s.(instants := s.instants + [Instant(d, w, |History(s, d)|, found.value)])
    else if d in s.tables.deviceSubs then Register(s, d, w)
    else s.(lock := Starting(d, ForWaiter(w)))
  }

  /** The fabric subscription has started: its handle enters the table and the lock is released. */
  function Stored(s: System): System
    requires s.lock.Starting?
  {
    s.(tables := WithHandle(s.tables, s.lock.device, s.nextHandle), nextHandle := s.nextHandle + 1, lock := Free)
  }

  function Started(s: System): System
    requires s.lock.Starting?
  {
    if s.lock.purpose.ForWaiter? then Register(Stored(s), s.lock.device, s.lock.purpose.wanted) else Stored(s)
  }

  function Took(s: System, q: QueueId): System
    requires q in s.calls && s.calls[q].queue != []
  {
    s.(calls := s.calls[q := TakeOne(s.calls[q])])
  }

  function CleanedUp(s: System, q: QueueId): System
    requires q in s.calls && s.calls[q].phase.Leaving?
  {
    var w := s.calls[q];
    Retiring(s.(calls := s.calls[q := Dropped(s, w).(phase := Left(w.phase.result))]),
             WithoutWaiter(s.tables, w.device, q))
  }

  function ClosedDown(s: System): System {
    s.(tables := Closed(s.tables), retiring := s.retiring + s.tables.deviceSubs.Values,
       calls := map q | q in s.calls :: Dropped(s, s.calls[q]))
  }

  function Recorded(s: System, i: nat): System
    requires i < |s.arrived|
  {
    var e := s.arrived[i];
    s.(tables := WithEvent(s.tables, e), arrived := Without(s.arrived, i),
       inflight := s.inflight + [Delivery(e, Waiters(s.tables, e.device))],
       history := s.history[e.device := History(s, e.device) + [e]])
  }

  function Delivered(s: System, i: nat): System
    requires i < |s.inflight|
  {
    var dl := s.inflight[i];
    s.(inflight := Without(s.inflight, i), calls := PutAll(s.calls, dl.queues, dl.event))
  }

  function Apply(s: System, step: Step): System
    requires Enabled(s, step)
  {
    match step
    case Subscribe(d, c) => StartIfNeeded(s.(tables := WithSubscriber(s.tables, d, c)), d, ForSubscriber)
    case Unsubscribe(d, c) => Retiring(s, WithoutSubscriber(s.tables, d, c))
    case Ensure(d) => StartIfNeeded(s.(tables := WithPin(s.tables, d)), d, ForPin)
    case Wait(d, w) => Waited(s, d, w)
    case StartOk => Started(s)
    case StartFail => s.(lock := Free, startFailed := true)
    case Take(q) => Took(s, q)
    case Timeout(q) => s.(calls := s.calls[q := s.calls[q].(phase := Leaving(None))])
    case Cleanup(q) => CleanedUp(s, q)
    case Close => ClosedDown(s)
    case Arrive(e) => s.(tables := WithLatest(s.tables, e), arrived := s.arrived + [e])
    case Record(i) => Recorded(s, i)
    case Deliver(i) => Delivered(s, i)
    case Retire(h) => s.(retiring := s.retiring - {h}, retired := s.retired + [h])
  }

  predicate IsRun(s: System, steps: seq<Step>)
    decreases |steps|
  {
    steps == [] || (Enabled(s, steps[0]) && IsRun(Apply(s, steps[0]), steps[1..]))
  }

  function Execute(s: System, steps: seq<Step>): System
    requires IsRun(s, steps)
    decreases |steps|
  {
    if steps == [] then s else Execute(Apply(s, steps[0]), steps[1..])
  }

  ghost predicate Reachable(s: System) {
    exists steps :: IsRun(INIT, steps) && Execute(INIT, steps) == s
  }

  // ----- invariant: registration -----

  /** No device is kept with an empty set of subscribers or an empty list of queues. */
  ghost predicate Tidy(t: Tables) {
    && (forall d :: d in t.subscribers ==> t.subscribers[d] != {})
    && (forall d :: d in t.waiters ==> t.waiters[d] != [])
  }

  /** The table lists exactly the calls not yet dropped, each once. */
  ghost predicate Listed(waiters: map<DeviceId, seq<QueueId>>, calls: map<QueueId, Waiter>, next: QueueId) {
    && (forall q :: q in calls ==> q < next)
    && (forall d :: d in waiters ==> NoDup(waiters[d]))
    && (forall d, q :: d in waiters && q in waiters[d] ==> q in calls && calls[q].device == d && calls[q].till.None?)
    && (forall q :: q in calls && calls[q].till.None? ==>
          calls[q].device in waiters && q in waiters[calls[q].device] && !calls[q].phase.Left?)
  }

  /** The queues that handlers in flight have read off. */
  ghost predicate Known(inflight: seq<Delivery>, calls: map<QueueId, Waiter>) {
    forall k :: 0 <= k < |inflight| ==>
      NoDup(inflight[k].queues) && forall q :: q in inflight[k].queues ==> q in calls
  }

  ghost predicate Registered(s: System) {
    Tidy(s.tables) && Listed(s.tables.waiters, s.calls, s.nextQueue) && Known(s.inflight, s.calls)
  }

  lemma {:induction false} RemoveKeeps(s: seq<QueueId>, q: QueueId)
    requires NoDup(s)
    ensures NoDup(Remove(s, q))
    ensures forall x :: x in Remove(s, q) <==> x in s && x != q
  {
    if s == [] {
    } else {
      RemoveKeeps(s[1..], q);
      if s[0] == q {
        forall x ensures x in s[1..] <==> x in s && x != q {
          if x in s && x != q { var i :| 0 <= i < |s| && s[i] == x; assert s[1..][i - 1] == x; }
        }
      } else {
        var r := Remove(s[1..], q);
        assert forall x :: x in s <==> x == s[0] || x in s[1..];
        assert s[0] !in r;
      }
    }
  }

  lemma {:induction false} PutAllFrame(calls: map<QueueId, Waiter>, queues: seq<QueueId>, e: Event)
    requires NoDup(queues) && forall q :: q in queues ==> q in calls
    ensures var r := PutAll(calls, queues, e);
            && r.Keys == calls.Keys
            && forall q :: q in calls ==>
                 r[q] == if q in queues then calls[q].(queue := calls[q].queue + [e]) else calls[q]
    decreases |queues|
  {
    if queues == [] {
    } else {
      var q := queues[0];
      var calls' := calls[q := calls[q].(queue := calls[q].queue + [e])];
      assert q !in queues[1..];
      assert forall x :: x in queues <==> x == q || x in queues[1..];
      PutAllFrame(calls', queues[1..], e);
    }
  }

  lemma WithoutSubscriberTidy(t: Tables, d: DeviceId, c: Client)
    requires Tidy(t)
    ensures var t' := WithoutSubscriber(t, d, c).tables; Tidy(t') && t'.waiters == t.waiters
  {
  }

  lemma WithoutWaiterTidy(t: Tables, d: DeviceId, q: QueueId)
    requires Tidy(t)
    ensures Tidy(WithoutWaiter(t, d, q).tables)
  {
  }

  lemma TidyKept(s: System, step: Step)
    requires Tidy(s.tables) && Enabled(s, step)
    ensures Tidy(Apply(s, step).tables)
  {
    hide WithoutSubscriber, WithoutWaiter, Newest, Matches, PutAll, LastN;
    match step
    case Unsubscribe(d, c) => WithoutSubscriberTidy(s.tables, d, c);
    case Cleanup(q) => WithoutWaiterTidy(s.tables, s.calls[q].device, q);
    case _ =>
  }

  lemma RegisterListed(s: System, d: DeviceId, w: Wanted)
    requires Listed(s.tables.waiters, s.calls, s.nextQueue)
    ensures var t := Register(s, d, w); Listed(t.tables.waiters, t.calls, t.nextQueue)
  {
    var t, q, old_ := Register(s, d, w), s.nextQueue, Waiters(s.tables, d);
    assert q !in s.calls && q !in old_;
    assert t.tables.waiters[d] == old_ + [q];
    assert forall x :: x in old_ + [q] <==> x in old_ || x == q;
  }

  lemma DropListed(waiters: map<DeviceId, seq<QueueId>>, calls: map<QueueId, Waiter>, next: QueueId,
                   q: QueueId, w: Waiter, left: seq<QueueId>)
    requires Listed(waiters, calls, next) && q in calls && w.device == calls[q].device && w.till.Some?
    requires NoDup(left)
    requires forall x :: x in left <==> w.device in waiters && x in waiters[w.device] && x != q
    ensures Listed(if left != [] then waiters[w.device := left] else waiters - {w.device}, calls[q := w], next)
  {
    var d := w.device;
    var waiters' := if left != [] then waiters[d := left] else waiters - {d};
    forall x | x in calls && x != q && calls[x].till.None?
      ensures calls[x].device in waiters' && x in waiters'[calls[x].device]
    {
      if calls[x].device == d { assert x in left; }
    }
  }

  lemma CleanupListed(s: System, q: QueueId)
    requires Listed(s.tables.waiters, s.calls, s.nextQueue) && q in s.calls && s.calls[q].phase.Leaving?
    ensures var t := CleanedUp(s, q); Listed(t.tables.waiters, t.calls, t.nextQueue)
  {
    hide Listed, Remove;
    var w := s.calls[q];
    ListedNoDup(s.tables, s.calls, s.nextQueue, w.device);
    RemoveKeeps(Waiters(s.tables, w.device), q);
    DropListed(s.tables.waiters, s.calls, s.nextQueue, q, Dropped(s, w).(phase := Left(w.phase.result)),
               Remove(Waiters(s.tables, w.device), q));
  }

  lemma ListedNoDup(t: Tables, calls: map<QueueId, Waiter>, next: QueueId, d: DeviceId)
    requires Listed(t.waiters, calls, next)
    ensures NoDup(Waiters(t, d))
    ensures forall q :: q in Waiters(t, d) ==> q in calls
  {
  }

  /** Taking, timing out and delivering change no call's place in the table. */
  lemma SamePlacesListed(waiters: map<DeviceId, seq<QueueId>>, calls: map<QueueId, Waiter>,
                         calls': map<QueueId, Waiter>, next: QueueId)
    requires Listed(waiters, calls, next) && calls'.Keys == calls.Keys
    requires forall q :: q in calls ==>
      && calls'[q].device == calls[q].device && calls'[q].till == calls[q].till
      && (calls'[q].phase.Left? ==> calls[q].phase.Left?)
    ensures Listed(waiters, calls', next)
  {
  }

  lemma CloseListed(s: System)
    requires Listed(s.tables.waiters, s.calls, s.nextQueue)
    ensures var t := ClosedDown(s); Listed(t.tables.waiters, t.calls, t.nextQueue)
  {
  }

  lemma ListedKept(s: System, step: Step)
    requires Registered(s) && Enabled(s, step)
    ensures var t := Apply(s, step); Listed(t.tables.waiters, t.calls, t.nextQueue)
  {
    hide CleanedUp, ClosedDown, WithoutSubscriber, Listed, Matches, Register, PutAll, Newest;
    var t := Apply(s, step);
    match step
    case Unsubscribe(d, c) => WithoutSubscriberTidy(s.tables, d, c);
    case Wait(d, w) => RegisterListed(s, d, w);
    case StartOk => if s.lock.purpose.ForWaiter? { RegisterListed(Stored(s), s.lock.device, s.lock.purpose.wanted); }
    case Cleanup(q) => CleanupListed(s, q);
    case Close => CloseListed(s);
    case Take(q) => SamePlacesListed(s.tables.waiters, s.calls, t.calls, s.nextQueue);
    case Timeout(q) => SamePlacesListed(s.tables.waiters, s.calls, t.calls, s.nextQueue);
    case Deliver(i) =>
      PutAllFrame(s.calls, s.inflight[i].queues, s.inflight[i].event);
      SamePlacesListed(s.tables.waiters, s.calls, t.calls, s.nextQueue);
    case _ =>
  }

  lemma KnownKept(s: System, step: Step)
    requires Listed(s.tables.waiters, s.calls, s.nextQueue) && Known(s.inflight, s.calls) && Enabled(s, step)
    ensures Known(Apply(s, step).inflight, Apply(s, step).calls)
  {
    hide WithoutWaiter, WithoutSubscriber, Newest, Matches, PutAll, WithEvent;
    match step
    case Deliver(i) => PutAllFrame(s.calls, s.inflight[i].queues, s.inflight[i].event);
    case _ =>
  }

  lemma RegisteredKept(s: System, step: Step)
    requires Registered(s) && Enabled(s, step)
    ensures Registered(Apply(s, step))
  {
    hide Apply, Tidy, Listed, Known;
    TidyKept(s, step);
    ListedKept(s, step);
    KnownKept(s, step);
  }
}
