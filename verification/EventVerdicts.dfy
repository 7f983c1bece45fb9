/** The answers of `wait_for_event`, the demand behind fabric subscriptions, the life of their handles, and the
    theorems over whole runs. */
module EventVerdicts {
  import opened Sequences
  import opened Text
  import opened EventManager
  import opened EventProtocol
  import opened EventSafety

  // ----- verdicts -----

  ghost predicate NoneMatch(es: seq<Event>, w: Wanted) {
    forall k :: 0 <= k < |es| ==> !Matches(es[k], w)
  }

  /** A call returns the first matching event it takes, or None after taking no match. */
  ghost predicate VerdictFits(taken: seq<Event>, w: Wanted, result: Option<Event>) {
    match result
    case None => NoneMatch(taken, w)
    case Some(e) =>
      taken != [] && taken[|taken| - 1] == e && Matches(e, w) && NoneMatch(taken[..|taken| - 1], w)
  }

  ghost predicate Fits(w: Waiter) {
    match w.phase
    case Waiting => NoneMatch(w.taken, w.wanted)
    case Leaving(r) => VerdictFits(w.taken, w.wanted, r)
    case Left(r) => VerdictFits(w.taken, w.wanted, r)
  }

  /** When a call registered, its event was not among the last 32 of its device. */
  ghost predicate Scanned(s: System, w: Waiter) {
    var h := History(s, w.device);
    w.from <= |h| && NoneMatch(LastN(h[..w.from], RECENT_EVENTS_LIMIT), w.wanted)
  }

  ghost predicate Judged(s: System) {
    && (forall q :: q in s.calls ==> Fits(s.calls[q]) && Scanned(s, s.calls[q]))
    && (s.lock.Starting? && s.lock.purpose.ForWaiter? ==>
          NoneMatch(Recent(s.tables, s.lock.device), s.lock.purpose.wanted))
  }

  lemma RegisterJudged(s: System, d: DeviceId, w: Wanted)
    requires Judged(s) && RingIsRecent(s) && s.lock.Free? && NoneMatch(Recent(s.tables, d), w)
    ensures Judged(Register(s, d, w))
  {
    hide NoneMatch, LastN;
    var t, h := Register(s, d, w), History(s, d);
    assert h[..|h|] == h;
    assert Fits(t.calls[s.nextQueue]) by { NoneOfNothing(w); }
    forall q | q in s.calls ensures Fits(t.calls[q]) && Scanned(t, t.calls[q]) {
      if q != s.nextQueue { assert Scanned(s, s.calls[q]); }
    }
  }

  lemma NoneOfNothing(w: Wanted)
    ensures NoneMatch([], w)
  {
  }

  lemma TakeJudged(s: System, q: QueueId)
    requires Judged(s) && Enabled(s, Take(q))
    ensures Judged(Took(s, q))
  {
    hide Matches, LastN;
    var t, w := Took(s, q), s.calls[q];
    assert t.calls[q].taken[..|w.taken|] == w.taken;
    forall x | x in s.calls ensures Fits(t.calls[x]) && Scanned(t, t.calls[x]) {
      assert Fits(s.calls[x]) && Scanned(s, s.calls[x]);
    }
  }

  lemma RecordJudged(s: System, i: nat)
    requires Judged(s) && s.lock.Free? && i < |s.arrived|
    ensures Judged(Recorded(s, i))
  {
    hide NoneMatch, LastN, VerdictFits;
    var t, e := Recorded(s, i), s.arrived[i];
    forall q | q in s.calls ensures Scanned(t, t.calls[q]) {
      var w := s.calls[q];
      assert Scanned(s, w);
      assert History(t, w.device)[..w.from] == History(s, w.device)[..w.from];
    }
  }

  /** Steps that keep every call's request, takings and phase, or end a wait without a result. */
  lemma SameVerdicts(s: System, t: System)
    requires Judged(s) && t.history == s.history && t.calls.Keys == s.calls.Keys
    requires t.lock.Free? || (t.lock == s.lock && t.tables.recent == s.tables.recent) || !t.lock.purpose.ForWaiter?
    requires forall q :: q in s.calls ==>
      var w, v := s.calls[q], t.calls[q];
      && v.device == w.device && v.wanted == w.wanted && v.from == w.from && v.taken == w.taken
      && (v.phase == w.phase || (w.phase.Leaving? && v.phase == Left(w.phase.result))
          || (w.phase.Waiting? && v.phase == Leaving(None)))
    ensures Judged(t)
  {
    hide NoneMatch, LastN;
    forall q | q in s.calls ensures Fits(t.calls[q]) && Scanned(t, t.calls[q]) {
      assert Fits(s.calls[q]) && Scanned(s, s.calls[q]);
    }
  }

  lemma NewestNone(ring: seq<Event>, w: Wanted)
    ensures Newest(ring, w).None? <==> NoneMatch(ring, w)
  {
  }

  lemma WaitJudged(s: System, d: DeviceId, w: Wanted)
    requires Judged(s) && RingIsRecent(s) && s.lock.Free?
    ensures Judged(Waited(s, d, w))
  {
    hide Newest, Register, RingIsRecent;
    NewestNone(Recent(s.tables, d), w);
    if NoneMatch(Recent(s.tables, d), w) && d in s.tables.deviceSubs {
      RegisterJudged(s, d, w);
    } else {
      hide NoneMatch;
      forall q | q in s.calls ensures Scanned(Waited(s, d, w), s.calls[q]) { assert Scanned(s, s.calls[q]); }
    }
  }

  lemma JudgedKept(s: System, step: Step)
    requires Judged(s) && Registered(s) && RingIsRecent(s) && Enabled(s, step)
    ensures Judged(Apply(s, step))
  {
    hide Judged, Registered, RingIsRecent, Took, Recorded, Waited, Delivered;
    if step.Wait? {
      WaitJudged(s, step.d, step.w);
    } else if step.StartOk? {
      hide Register;
      SameVerdicts(s, Stored(s));
      if s.lock.purpose.ForWaiter? { StartJudged(s); }
    } else if step.Take? {
      TakeJudged(s, step.q);
    } else if step.Record? {
      RecordJudged(s, step.i);
    } else if step.Deliver? {
      DeliverJudged(s, step.i);
    } else {
      OtherJudged(s, step);
    }
  }

  lemma DeliverJudged(s: System, i: nat)
    requires Judged(s) && Registered(s) && i < |s.inflight|
    ensures Judged(Delivered(s, i))
  {
    hide Judged, PutAll, Tidy, Listed;
    PutAllFrame(s.calls, s.inflight[i].queues, s.inflight[i].event);
    SameVerdicts(s, Delivered(s, i));
  }

  lemma OtherJudged(s: System, step: Step)
    requires Judged(s) && Enabled(s, step)
    requires !step.Wait? && !step.StartOk? && !step.Take? && !step.Record? && !step.Deliver?
    ensures Judged(Apply(s, step))
  {
    hide Judged, WithoutWaiter, WithoutSubscriber, PutAll, Recorded, Took, Waited;
    SameVerdicts(s, Apply(s, step));
  }

  lemma StartJudged(s: System)
    requires s.lock.Starting? && s.lock.purpose.ForWaiter?
    requires Judged(s) && Judged(Stored(s)) && RingIsRecent(s)
    ensures Judged(Register(Stored(s), s.lock.device, s.lock.purpose.wanted))
  {
    hide Register, RingIsRecent, NoneMatch;
    SameRing(s, Stored(s));
    RegisterJudged(Stored(s), s.lock.device, s.lock.purpose.wanted);
  }

  // ----- answers from the ring -----

  /** What the ring scan of a call had before it: the last 32 events recorded by then, of which the answer is the newest
      match. */
  ghost predicate Instantly(s: System, i: Instant) {
    var h := History(s, i.device);
    i.at <= |h| && Newest(LastN(h[..i.at], RECENT_EVENTS_LIMIT), i.wanted) == Some(i.result)
  }

  ghost predicate AllInstantly(s: System) {
    forall k :: 0 <= k < |s.instants| ==> Instantly(s, s.instants[k])
  }

  lemma WaitInstantly(s: System, d: DeviceId, w: Wanted)
    requires AllInstantly(s) && RingIsRecent(s)
    ensures AllInstantly(Waited(s, d, w))
  {
    hide Newest, LastN;
    var t, h := Waited(s, d, w), History(s, d);
    assert h[..|h|] == h && Recent(s.tables, d) == LastN(h, RECENT_EVENTS_LIMIT);
    forall k | 0 <= k < |t.instants| ensures Instantly(t, t.instants[k]) {
      if k < |s.instants| { assert Instantly(s, s.instants[k]); }
    }
  }

  lemma RecordInstantly(s: System, i: nat)
    requires AllInstantly(s) && i < |s.arrived|
    ensures AllInstantly(Recorded(s, i))
  {
    hide Newest, LastN;
    var t := Recorded(s, i);
    forall k | 0 <= k < |t.instants| ensures Instantly(t, t.instants[k]) {
      var x := s.instants[k];
      assert Instantly(s, x) && History(t, x.device)[..x.at] == History(s, x.device)[..x.at];
    }
  }

  lemma SameInstantly(s: System, t: System)
    requires AllInstantly(s) && t.instants == s.instants && t.history == s.history
    ensures AllInstantly(t)
  {
    hide Newest, LastN;
    forall k | 0 <= k < |t.instants| ensures Instantly(t, t.instants[k]) { assert Instantly(s, s.instants[k]); }
  }

  lemma OnlyWaitAnswers(s: System, step: Step)
    requires Enabled(s, step) && !step.Wait?
    ensures Apply(s, step).instants == s.instants
  {
    hide Waited, PutAll, WithoutWaiter, WithoutSubscriber, Newest, Waiters, Recent, History, TakeOne, Dropped, Without;
  }

  lemma InstantlyKept(s: System, step: Step)
    requires AllInstantly(s) && RingIsRecent(s) && Enabled(s, step)
    ensures AllInstantly(Apply(s, step))
  {
    hide AllInstantly, RingIsRecent, Apply, Recorded, Waited;
    if step.Wait? {
      WaitInstantly(s, step.d, step.w);
      WaitIs(s, step.d, step.w);
    } else if step.Record? {
      RecordInstantly(s, step.i);
      RecordIs(s, step.i);
    } else {
      OnlyRecordWrites(s, step);
      OnlyWaitAnswers(s, step);
      SameInstantly(s, Apply(s, step));
    }
  }

  lemma WaitIs(s: System, d: DeviceId, w: Wanted)
    requires Enabled(s, Wait(d, w))
    ensures Apply(s, Wait(d, w)) == Waited(s, d, w)
  {
    hide Waited;
  }

  // ----- demand -----

  /** A device with a fabric subscription is pinned, subscribed to or waited on; and the other way round, but for
      the one being started, unless a start has failed. */
  ghost predicate InDemand(s: System) {
    && (forall d :: d in s.tables.deviceSubs ==> Demanded(s.tables, d))
    && (s.lock.Starting? ==>
          && s.lock.device !in s.tables.deviceSubs
          && (s.lock.purpose.ForSubscriber? ==> s.lock.device in s.tables.subscribers)
          && (s.lock.purpose.ForPin? ==> s.lock.device in s.tables.pinned))
    && (!s.startFailed ==> forall d :: Demanded(s.tables, d) ==>
          d in s.tables.deviceSubs || (s.lock.Starting? && s.lock.device == d))
  }

  lemma UnsubscribeDemand(t: Tables, d: DeviceId, c: Client)
    requires Tidy(t)
    ensures var r := WithoutSubscriber(t, d, c);
            && (forall x :: x != d ==> (x in r.tables.deviceSubs <==> x in t.deviceSubs)
                                        && (Demanded(r.tables, x) <==> Demanded(t, x)))
            && (d in t.deviceSubs && Demanded(t, d) ==> (d in r.tables.deviceSubs <==> Demanded(r.tables, d)))
            && (d !in t.deviceSubs ==> d !in r.tables.deviceSubs && (Demanded(r.tables, d) ==> Demanded(t, d)))
  {
  }

  lemma ReleaseDemand(t: Tables, d: DeviceId, q: QueueId)
    requires Tidy(t)
    ensures var r := WithoutWaiter(t, d, q);
            && (forall x :: x != d ==> (x in r.tables.deviceSubs <==> x in t.deviceSubs)
                                        && (Demanded(r.tables, x) <==> Demanded(t, x)))
            && (d in t.deviceSubs ==> (d in r.tables.deviceSubs <==> Demanded(r.tables, d)))
            && (d !in t.deviceSubs ==> d !in r.tables.deviceSubs && (Demanded(r.tables, d) ==> Demanded(t, d)))
  {
    RemoveSub(Waiters(t, d), q);
  }

  lemma {:induction false} RemoveSub(s: seq<QueueId>, q: QueueId)
    ensures s == [] ==> Remove(s, q) == []
  {
  }

  /** A step that leaves the tables behind a demand alone. */
  predicate Quiet(step: Step) {
    step.Take? || step.Timeout? || step.Arrive? || step.Record? || step.Deliver? || step.Retire?
  }

  lemma QuietTables(s: System, step: Step)
    requires Enabled(s, step) && Quiet(step)
    ensures var t := Apply(s, step);
            && t.tables.deviceSubs == s.tables.deviceSubs && t.tables.subscribers == s.tables.subscribers
            && t.tables.waiters == s.tables.waiters && t.tables.pinned == s.tables.pinned
            && t.lock == s.lock && t.startFailed == s.startFailed
  {
    hide PutAll, LastN, Matches, Waiters, Recent;
  }

  lemma DemandOnStart(s: System, step: Step)
    requires InDemand(s) && Enabled(s, step)
    requires step.Subscribe? || step.Ensure? || step.Wait? || step.StartOk? || step.StartFail?
    ensures InDemand(Apply(s, step))
  {
    hide WithoutWaiter, WithoutSubscriber, PutAll, Newest, Matches, LastN, Recent, Waiters, History;
  }

  lemma DemandOnEnd(s: System, step: Step)
    requires InDemand(s) && Tidy(s.tables) && Enabled(s, step)
    requires step.Unsubscribe? || step.Cleanup? || step.Close?
    ensures InDemand(Apply(s, step))
  {
    hide WithoutWaiter, WithoutSubscriber, PutAll, Newest, Matches, LastN, Recent, Waiters, History, Tidy;
    match step
    case Unsubscribe(d, c) => UnsubscribeDemand(s.tables, d, c);
    case Cleanup(q) => ReleaseDemand(s.tables, s.calls[q].device, q);
    case Close =>
  }

  lemma DemandKept(s: System, step: Step)
    requires InDemand(s) && Tidy(s.tables) && Enabled(s, step)
    ensures InDemand(Apply(s, step))
  {
    hide Apply, Tidy;
    if Quiet(step) {
      QuietTables(s, step);
    } else if step.Unsubscribe? || step.Cleanup? || step.Close? {
      DemandOnEnd(s, step);
    } else {
      DemandOnStart(s, step);
    }
  }

  // ----- handles -----

  ghost predicate InTable(subs: map<DeviceId, Handle>, h: Handle) {
    exists d :: d in subs && subs[d] == h
  }

  /** Every handle ever started is in the table, or on its way to be unsubscribed, or was unsubscribed: one of the
      three, and once. */
  ghost predicate HandlesOnce(subs: map<DeviceId, Handle>, next: Handle, retiring: set<Handle>, retired: seq<Handle>) {
    && (forall d :: d in subs ==> subs[d] < next && subs[d] !in retiring && subs[d] !in retired)
    && (forall d, e :: d in subs && e in subs && subs[d] == subs[e] ==> d == e)
    && (forall h :: h in retiring ==> h < next && h !in retired)
    && (forall h :: h in retired ==> h < next)
    && NoDup(retired)
    && (forall h: Handle :: h < next ==> h in retiring || h in retired || InTable(subs, h))
  }

  ghost predicate HandlesSettled(s: System) {
    HandlesOnce(s.tables.deviceSubs, s.nextHandle, s.retiring, s.retired)
  }

  lemma ReleaseHandles(subs: map<DeviceId, Handle>, next: Handle, retiring: set<Handle>, retired: seq<Handle>,
                       d: DeviceId)
    requires HandlesOnce(subs, next, retiring, retired) && d in subs
    ensures HandlesOnce(subs - {d}, next, retiring + {subs[d]}, retired)
  {
    forall h: Handle | h < next && h !in retiring && h !in retired && h != subs[d]
      ensures InTable(subs - {d}, h)
    {
      var x :| x in subs && subs[x] == h;
      assert (subs - {d})[x] == h;
    }
  }

  lemma StartHandles(subs: map<DeviceId, Handle>, next: Handle, retiring: set<Handle>, retired: seq<Handle>,
                     d: DeviceId)
    requires HandlesOnce(subs, next, retiring, retired) && d !in subs
    ensures HandlesOnce(subs[d := next], next + 1, retiring, retired)
  {
    var subs' := subs[d := next];
    assert subs'[d] == next;
    forall h: Handle | h < next && h !in retiring && h !in retired ensures InTable(subs', h) {
      var x :| x in subs && subs[x] == h;
      assert subs'[x] == h;
    }
  }

  lemma CloseHandles(subs: map<DeviceId, Handle>, next: Handle, retiring: set<Handle>, retired: seq<Handle>)
    requires HandlesOnce(subs, next, retiring, retired)
    ensures HandlesOnce(map[], next, retiring + subs.Values, retired)
  {
  }

  lemma RetireHandles(subs: map<DeviceId, Handle>, next: Handle, retiring: set<Handle>, retired: seq<Handle>, h: Handle)
    requires HandlesOnce(subs, next, retiring, retired) && h in retiring
    ensures HandlesOnce(subs, next, retiring - {h}, retired + [h])
  {
    assert forall x :: x in retired + [h] <==> x == h || x in retired;
  }

  /** A releasing region takes the device's handle or leaves the handles alone. */
  ghost predicate TakesOwnHandle(subs: map<DeviceId, Handle>, r: Released, d: DeviceId) {
    if r.handle.Some? then d in subs && r.handle.value == subs[d] && r.tables.deviceSubs == subs - {d}
    else r.tables.deviceSubs == subs
  }

  lemma RegionsTakeOwnHandle(t: Tables, d: DeviceId, c: Client, q: QueueId)
    ensures TakesOwnHandle(t.deviceSubs, WithoutSubscriber(t, d, c), d)
    ensures TakesOwnHandle(t.deviceSubs, WithoutWaiter(t, d, q), d)
  {
    assert d !in t.deviceSubs ==> t.deviceSubs - {d} == t.deviceSubs;
  }

  lemma ReleaseSettled(s: System, r: Released, d: DeviceId)
    requires HandlesSettled(s) && TakesOwnHandle(s.tables.deviceSubs, r, d)
    ensures HandlesSettled(Retiring(s, r))
  {
    hide HandlesOnce;
    if r.handle.Some? { ReleaseHandles(s.tables.deviceSubs, s.nextHandle, s.retiring, s.retired, d); }
    assert s.retiring + {} == s.retiring;
  }

  lemma HandlesKept(s: System, step: Step)
    requires HandlesSettled(s) && InDemand(s) && Enabled(s, step)
    ensures HandlesSettled(Apply(s, step))
  {
    hide HandlesOnce, PutAll, Newest, LastN, WithoutSubscriber, WithoutWaiter, TakesOwnHandle;
    var subs := s.tables.deviceSubs;
    match step
    case Unsubscribe(d, c) =>
      RegionsTakeOwnHandle(s.tables, d, c, 0);
      ReleaseSettled(s, WithoutSubscriber(s.tables, d, c), d);
    case Cleanup(q) =>
      var d := s.calls[q].device;
      RegionsTakeOwnHandle(s.tables, d, Client(0, ""), q);
      ReleaseSettled(s, WithoutWaiter(s.tables, d, q), d);
    case StartOk => StartHandles(subs, s.nextHandle, s.retiring, s.retired, s.lock.device);
    case Close => CloseHandles(subs, s.nextHandle, s.retiring, s.retired);
    case Retire(h) => RetireHandles(subs, s.nextHandle, s.retiring, s.retired, h);
    case _ =>
  }

  // ----- whole runs -----

  ghost predicate Good(s: System) {
    && Registered(s) && RingIsRecent(s) && Conserved(s) && Judged(s) && InDemand(s) && HandlesSettled(s)
    && AllInstantly(s)
  }

  lemma GoodKept(s: System, step: Step)
    requires Good(s) && Enabled(s, step)
    ensures Good(Apply(s, step))
  {
    hide Apply, Registered, RingIsRecent, Conserved, Judged, InDemand, HandlesSettled, AllInstantly;
    InstantlyKept(s, step);
    RegisteredKept(s, step);
    RingKept(s, step);
    ConservedKept(s, step);
    JudgedKept(s, step);
    DemandKept(s, step) by { RegisteredTidy(s); }
    HandlesKept(s, step);
  }

  lemma RegisteredTidy(s: System)
    requires Registered(s)
    ensures Tidy(s.tables)
  {
  }

  lemma {:induction false} RunsAreGood(s: System, steps: seq<Step>)
    requires Good(s) && IsRun(s, steps)
    ensures Good(Execute(s, steps))
    decreases |steps|
  {
    hide Good, Apply;
    if steps == [] {
    } else {
      GoodKept(s, steps[0]);
      RunsAreGood(Apply(s, steps[0]), steps[1..]);
    }
  }

  lemma InitIsGood()
    ensures Good(INIT)
  {
  }

  lemma ReachableIsGood(s: System)
    requires Reachable(s)
    ensures Good(s)
  {
    hide Good, Apply;
    var steps :| IsRun(INIT, steps) && Execute(INIT, steps) == s;
    InitIsGood();
    RunsAreGood(INIT, steps);
  }

  // ----- main results -----

  /** No wake-up is lost. Take a call of `wait_for_event` that has not been answered, and any matching event recorded
      for its device from 32 events before its registration on, up to the moment it leaves the table: that event
      is waiting in the call's queue, or a handler in flight has still to put it there. */
  lemma NoLostWakeUp(s: System, q: QueueId, k: nat)
    requires Reachable(s) && q in s.calls
    requires s.calls[q].phase == Waiting || s.calls[q].phase in {Leaving(None), Left(None)}
    requires var w := s.calls[q];
             w.from - 32 <= k < End(s, w) && k < |History(s, w.device)|
             && Matches(History(s, w.device)[k], w.wanted)
    ensures var w, e := s.calls[q], History(s, s.calls[q].device)[k];
            k >= w.from && (e in w.queue || e in Owed(s.inflight, q))
  {
    hide Reachable, Registered, RingIsRecent, InDemand, HandlesSettled, Matches, Owed;
    ReachableIsGood(s);
    var w := s.calls[q];
    var h := History(s, w.device);
    assert Fits(w) && Scanned(s, w) && ConservedFor(s, q);
    if k < w.from {
      OutsideScan(h, w.from, w.wanted, k);
    } else {
      assert Window(s, w)[k - w.from] == h[k];
      assert h[k] in multiset(Window(s, w));
      assert h[k] !in w.taken;
    }
  }

  lemma OutsideScan(h: seq<Event>, from: nat, w: Wanted, k: nat)
    requires from <= |h| && NoneMatch(LastN(h[..from], RECENT_EVENTS_LIMIT), w)
    requires from - RECENT_EVENTS_LIMIT <= k < from
    ensures !Matches(h[k], w)
  {
    hide Matches;
    var ring := LastN(h[..from], RECENT_EVENTS_LIMIT);
    assert ring[k - (from - |ring|)] == h[k];
  }

  /** An event that handlers owe to a call reaches its queue with one delivery. */
  lemma OwedIsPut(s: System, q: QueueId, e: Event) returns (i: nat)
    requires Reachable(s) && q in s.calls && e in Owed(s.inflight, q)
    ensures Enabled(s, Deliver(i)) && q in Apply(s, Deliver(i)).calls && e in Apply(s, Deliver(i)).calls[q].queue
  {
    hide Reachable, RingIsRecent, Conserved, Judged, InDemand, HandlesSettled, Owed, PutAll;
    ReachableIsGood(s);
    i := OwedFrom(s.inflight, q, e);
    PutAllFrame(s.calls, s.inflight[i].queues, e);
  }

  /** While the lock is free a waiting call can always give up: it times out, leaves the table and answers nothing. */
  lemma WaitingCallCanLeave(s: System, q: QueueId)
    requires Reachable(s) && s.lock.Free? && q in s.calls && s.calls[q].phase.Waiting?
    ensures var steps := [Timeout(q), Cleanup(q)];
            && IsRun(s, steps) && q in Execute(s, steps).calls
            && Execute(s, steps).calls[q].phase == Left(None) && Execute(s, steps).calls[q].till.Some?
            && forall d :: q !in Waiters(Execute(s, steps).tables, d)
  {
    hide Reachable, RingIsRecent, Conserved, Judged, InDemand, HandlesSettled, WithoutWaiter;
    ReachableIsGood(s);
    var s1 := Apply(s, Timeout(q));
    RegisteredKept(s, Timeout(q));
    RegisteredKept(s1, Cleanup(q));
    assert [Timeout(q), Cleanup(q)][1..] == [Cleanup(q)] && [Cleanup(q)][1..] == [];
    assert IsRun(Apply(s1, Cleanup(q)), []);
    assert IsRun(s1, [Cleanup(q)]);
    assert Execute(s1, [Cleanup(q)]) == Apply(s1, Cleanup(q));
  }

  /** While the lock is free: a subscription can be made, and has its device served when the fabric subscription
      starts; and a handler that waits for the lock can record its event, which then ends the device's ring. */
  lemma FreeLockServes(s: System, d: DeviceId, c: Client)
    requires s.lock.Free?
    ensures var steps := if d in s.tables.deviceSubs then [Subscribe(d, c)] else [Subscribe(d, c), StartOk];
            && IsRun(s, steps) && Execute(s, steps).lock.Free?
            && d in Execute(s, steps).tables.deviceSubs && Lists(Execute(s, steps).tables, d, c)
    ensures forall i: nat :: i < |s.arrived| ==>
              && Enabled(s, Record(i))
              && var e, ring := s.arrived[i], Recent(Apply(s, Record(i)).tables, s.arrived[i].device);
                 ring != [] && ring[|ring| - 1] == e
  {
    var s1 := Apply(s, Subscribe(d, c));
    assert [Subscribe(d, c)][1..] == [] && [Subscribe(d, c), StartOk][1..] == [StartOk] && [StartOk][1..] == [];
    assert IsRun(s1, []);
    if d !in s.tables.deviceSubs {
      assert IsRun(Apply(s1, StartOk), []);
      assert IsRun(s1, [StartOk]) && Execute(s1, [StartOk]) == Apply(s1, StartOk);
    }
  }

  lemma {:induction false} OwedFrom(inflight: seq<Delivery>, q: QueueId, e: Event) returns (i: nat)
    requires e in Owed(inflight, q)
    ensures i < |inflight| && q in inflight[i].queues && inflight[i].event == e
  {
    if q in inflight[0].queues && inflight[0].event == e {
      i := 0;
    } else {
      i := OwedFrom(inflight[1..], q, e);
      i := i + 1;
    }
  }

  function Takes(q: QueueId, n: nat): (steps: seq<Step>)
    ensures |steps| == n
  {
    if n == 0 then [] else [Take(q)] + Takes(q, n - 1)
  }

  /** The event in the queue wakes its call: `n` takes, with `n` no more than the queue is long, end with the first
      match as the answer, and leave everything but that call as it was. */
  lemma {:induction false} MatchIsAnswered(s: System, q: QueueId, k: nat) returns (n: nat)
    requires q in s.calls && s.calls[q].phase.Waiting?
    requires k < |s.calls[q].queue| && Matches(s.calls[q].queue[k], s.calls[q].wanted)
    ensures 0 < n <= k + 1 && IsRun(s, Takes(q, n))
    ensures var w, t := s.calls[q], Execute(s, Takes(q, n));
            && q in t.calls && t.calls[q].phase == Leaving(Some(w.queue[n - 1])) && Matches(w.queue[n - 1], w.wanted)
            && NoneMatch(w.queue[..n - 1], w.wanted) && t == s.(calls := s.calls[q := t.calls[q]])
    decreases k
  {
    hide Matches, NoneMatch;
    var w, t := s.calls[q], Took(s, q);
    if Matches(w.queue[0], w.wanted) {
      n := 1;
      assert Takes(q, 1)[1..] == [] && IsRun(t, []);
      NoneOfNothing(w.wanted);
    } else {
      var m := MatchIsAnswered(t, q, k - 1);
      n := m + 1;
      assert Takes(q, n)[1..] == Takes(q, m);
      NoneMatchAfter(w.queue, m - 1, w.wanted);
    }
  }

  lemma NoneMatchAfter(queue: seq<Event>, m: nat, w: Wanted)
    requires m < |queue| && !Matches(queue[0], w) && NoneMatch(queue[1..][..m], w)
    ensures NoneMatch(queue[..m + 1], w)
  {
    hide Matches;
    assert queue[..m + 1] == [queue[0]] + queue[1..][..m];
  }

  /** A call answers with a matching event of its own window, the first match among the events it took; what it
      took, has queued and is still owed is, event for event, what was recorded while it was registered. */
  lemma AnswersComeFromTheWindow(s: System, q: QueueId)
    requires Reachable(s) && q in s.calls
    ensures ConservedFor(s, q) && Fits(s.calls[q])
    ensures var w := s.calls[q];
            (w.phase.Leaving? || w.phase.Left?) && w.phase.result.Some? ==>
              Matches(w.phase.result.value, w.wanted) && w.phase.result.value in Window(s, w)
  {
    hide Reachable, Registered, RingIsRecent, InDemand, HandlesSettled, Matches, Owed;
    ReachableIsGood(s);
    var w := s.calls[q];
    assert Fits(w) && ConservedFor(s, q);
    if (w.phase.Leaving? || w.phase.Left?) && w.phase.result.Some? {
      assert w.phase.result.value in multiset(w.taken);
      assert w.phase.result.value in multiset(Window(s, w));
    }
  }

  /** A call answered at once got the newest match of the last 32 events recorded for its device by then; and a call
      that registers a queue does so because there was none. */
  lemma RingIsScanned(s: System, k: nat, q: QueueId)
    requires Reachable(s)
    ensures k < |s.instants| ==>
      var i, h := s.instants[k], History(s, s.instants[k].device);
      && i.at <= |h|
      && exists j :: i.at - 32 <= j < i.at && 0 <= j && h[j] == i.result && Matches(h[j], i.wanted)
                     && forall m :: j < m < i.at ==> !Matches(h[m], i.wanted)
    ensures q in s.calls ==>
      var w, h := s.calls[q], History(s, s.calls[q].device);
      && w.from <= |h|
      && forall m :: w.from - 32 <= m < w.from && 0 <= m ==> !Matches(h[m], w.wanted)
  {
    hide Reachable, Registered, RingIsRecent, Conserved, InDemand, HandlesSettled, Matches, Newest, Fits, LastN;
    ReachableIsGood(s);
    if k < |s.instants| {
      assert Instantly(s, s.instants[k]);
      NewestInHistory(History(s, s.instants[k].device), s.instants[k]);
    }
    if q in s.calls {
      var w := s.calls[q];
      assert Scanned(s, w);
      forall m | w.from - 32 <= m < w.from && 0 <= m
        ensures !Matches(History(s, w.device)[m], w.wanted)
      {
        OutsideScan(History(s, w.device), w.from, w.wanted, m);
      }
    }
  }

  lemma NewestInHistory(h: seq<Event>, i: Instant)
    requires i.at <= |h| && Newest(LastN(h[..i.at], RECENT_EVENTS_LIMIT), i.wanted) == Some(i.result)
    ensures exists j :: i.at - 32 <= j < i.at && 0 <= j && h[j] == i.result && Matches(h[j], i.wanted)
                        && forall m :: j < m < i.at ==> !Matches(h[m], i.wanted)
  {
    hide Matches, NewestIndex;
    var ring := LastN(h[..i.at], RECENT_EVENTS_LIMIT);
    var n := NewestIndex(ring, i.wanted);
    var shift := i.at - |ring|;
    assert forall m :: 0 <= m < |ring| ==> ring[m] == h[m + shift];
    var j := n + shift;
    assert h[j] == i.result && Matches(h[j], i.wanted);
    forall m | j < m < i.at ensures !Matches(h[m], i.wanted) { assert ring[m - shift] == h[m]; }
  }

  /** While the lock is free, the devices with a fabric subscription are all in demand, and they are exactly those
      in demand if no start has failed; no empty set of subscribers or list of queues is kept. */
  lemma SubscriptionsFollowDemand(s: System)
    requires Reachable(s) && s.lock.Free?
    ensures forall d :: d in s.tables.deviceSubs ==> Demanded(s.tables, d)
    ensures !s.startFailed ==> forall d :: d in s.tables.deviceSubs <==> Demanded(s.tables, d)
    ensures Tidy(s.tables)
  {
    hide Reachable, RingIsRecent, Conserved, Judged, HandlesSettled;
    ReachableIsGood(s);
  }

  /** No handle is unsubscribed twice, none while it is in the table, and none started is forgotten. */
  lemma HandlesEndOnce(s: System, h: Handle)
    requires Reachable(s)
    ensures NoDup(s.retired)
    ensures h < s.nextHandle <==> InTable(s.tables.deviceSubs, h) || h in s.retiring || h in s.retired
    ensures !(InTable(s.tables.deviceSubs, h) && (h in s.retiring || h in s.retired))
    ensures !(h in s.retiring && h in s.retired)
  {
    hide Reachable, RingIsRecent, Conserved, Judged, Registered, InDemand;
    ReachableIsGood(s);
  }

  // ----- demand left unmet -----

  predicate Unmet(t: Tables, d: DeviceId) {
    Demanded(t, d) && d !in t.deviceSubs
  }

  /** Whether a start for the device has failed and, since then, none for it has succeeded while it stayed in demand. */
  predicate Failing(s: System, failing: bool, step: Step, d: DeviceId)
    requires Enabled(s, step)
  {
    && Demanded(Apply(s, step).tables, d)
    && !(step.StartOk? && s.lock.device == d)
    && (failing || (step.StartFail? && s.lock.device == d))
  }

  predicate FailedSince(s: System, failing: bool, steps: seq<Step>, d: DeviceId)
    requires IsRun(s, steps)
    decreases |steps|
  {
    if steps == [] then failing
    else FailedSince(Apply(s, steps[0]), Failing(s, failing, steps[0], d), steps[1..], d)
  }

  /** The fold says what the tables show, unless the device is being started right now. */
  ghost predicate Tells(s: System, failing: bool, d: DeviceId) {
    && (failing ==> Unmet(s.tables, d))
    && (Unmet(s.tables, d) && !(s.lock.Starting? && s.lock.device == d) ==> failing)
  }

  lemma TellsOnDemand(s: System, failing: bool, step: Step, d: DeviceId)
    requires Tells(s, failing, d) && InDemand(s) && Enabled(s, step) && (step.Subscribe? || step.Ensure? || step.Wait?)
    ensures Tells(Apply(s, step), Failing(s, failing, step, d), d)
  {
    hide Newest, Matches, Recent, Waiters, History, Started, CleanedUp, ClosedDown, Took, Recorded, Delivered;
  }

  lemma TellsWhenStarted(s: System, failing: bool, step: Step, d: DeviceId)
    requires Tells(s, failing, d) && InDemand(s) && Enabled(s, step) && (step.StartOk? || step.StartFail?)
    ensures Tells(Apply(s, step), Failing(s, failing, step, d), d)
  {
    hide Waiters, History, Waited, CleanedUp, ClosedDown, Took, Recorded, Delivered;
  }

  lemma TellsOnEnd(s: System, failing: bool, step: Step, d: DeviceId)
    requires Tells(s, failing, d) && InDemand(s) && Tidy(s.tables) && Enabled(s, step)
    requires step.Unsubscribe? || step.Cleanup? || step.Close?
    ensures Tells(Apply(s, step), Failing(s, failing, step, d), d)
  {
    hide WithoutWaiter, WithoutSubscriber, PutAll, Newest, Matches, LastN, Recent, Waiters, History, Tidy;
    match step
    case Unsubscribe(e, c) => UnsubscribeDemand(s.tables, e, c);
    case Cleanup(q) => ReleaseDemand(s.tables, s.calls[q].device, q);
    case Close =>
  }

  lemma TellsKept(s: System, failing: bool, step: Step, d: DeviceId)
    requires Tells(s, failing, d) && InDemand(s) && Tidy(s.tables) && Enabled(s, step)
    ensures Tells(Apply(s, step), Failing(s, failing, step, d), d)
  {
    hide Apply, InDemand, Tidy;
    if Quiet(step) {
      QuietTables(s, step);
    } else if step.Unsubscribe? || step.Cleanup? || step.Close? {
      TellsOnEnd(s, failing, step, d);
    } else if step.StartOk? || step.StartFail? {
      TellsWhenStarted(s, failing, step, d);
    } else {
      TellsOnDemand(s, failing, step, d);
    }
  }

  lemma {:induction false} RunsTell(s: System, failing: bool, steps: seq<Step>, d: DeviceId)
    requires Good(s) && Tells(s, failing, d) && IsRun(s, steps)
    ensures Tells(Execute(s, steps), FailedSince(s, failing, steps, d), d)
    decreases |steps|
  {
    hide Good, Apply, Tells, Failing;
    if steps == [] {
    } else {
      TellsKept(s, failing, steps[0], d) by { GoodDemand(s); }
      GoodKept(s, steps[0]);
      RunsTell(Apply(s, steps[0]), Failing(s, failing, steps[0], d), steps[1..], d);
    }
  }

  lemma GoodDemand(s: System)
    requires Good(s)
    ensures InDemand(s) && Tidy(s.tables)
  {
  }

  /** Over every run, while the lock is free: a device in demand has no fabric subscription if and only if a start for
      it has failed and, since then, no start for it has succeeded while it stayed in demand. */
  lemma DemandIsUnmetIffStartFailed(steps: seq<Step>, d: DeviceId)
    requires IsRun(INIT, steps) && Execute(INIT, steps).lock.Free?
    ensures var t := Execute(INIT, steps).tables;
            Demanded(t, d) && d !in t.deviceSubs <==> FailedSince(INIT, false, steps, d)
  {
    hide Execute, IsRun, FailedSince, Good;
    InitIsGood();
    RunsTell(INIT, false, steps, d);
  }

  /** There is such a run for every device: the first clause of SubscriptionsFollowDemand has no converse. */
  lemma FailedStartLeavesDemand(d: DeviceId)
    ensures var steps := [Ensure(d), StartFail];
            && IsRun(INIT, steps) && Execute(INIT, steps).lock.Free?
            && FailedSince(INIT, false, steps, d) && Unmet(Execute(INIT, steps).tables, d)
  {
    var steps := [Ensure(d), StartFail];
    assert steps[1..] == [StartFail] && [StartFail][1..] == [];
    assert IsRun(Apply(Apply(INIT, Ensure(d)), StartFail), []);
    assert IsRun(Apply(INIT, Ensure(d)), [StartFail]);
    DemandIsUnmetIffStartFailed(steps, d);
  }

  // ----- who is listed and what is pinned -----

  /** Whether the last step of a run that subscribes the client to the device, unsubscribes it or closes the manager is
      a subscription. */
  predicate Subscribed(before: bool, steps: seq<Step>, d: DeviceId, c: Client) {
    if steps == [] then before
    else
      var n := |steps| - 1;
      match steps[n]
      case Subscribe(e, x) => if e == d && x == c then true else Subscribed(before, steps[..n], d, c)
      case Unsubscribe(e, x) => if e == d && x == c then false else Subscribed(before, steps[..n], d, c)
      case Close => false
      case _ => Subscribed(before, steps[..n], d, c)
  }

  /** Whether the device was asked for since the last close. */
  predicate AskedFor(before: bool, steps: seq<Step>, d: DeviceId) {
    if steps == [] then before
    else
      var n := |steps| - 1;
      match steps[n]
      case Ensure(e) => if e == d then true else AskedFor(before, steps[..n], d)
      case Close => false
      case _ => AskedFor(before, steps[..n], d)
  }

  lemma {:induction false} FirstStepTells(before: bool, steps: seq<Step>, d: DeviceId, c: Client)
    requires steps != []
    ensures Subscribed(before, steps, d, c) == Subscribed(Subscribed(before, [steps[0]], d, c), steps[1..], d, c)
    ensures AskedFor(before, steps, d) == AskedFor(AskedFor(before, [steps[0]], d), steps[1..], d)
    decreases |steps|
  {
    if |steps| == 1 {
      assert steps == [steps[0]];
    } else {
      var n := |steps| - 1;
      FirstStepTells(before, steps[..n], d, c);
      assert steps[1..][..n - 1] == steps[..n][1..] && steps[1..][n - 1] == steps[n];
    }
  }

  lemma StepLists(s: System, step: Step, d: DeviceId, c: Client)
    requires Enabled(s, step)
    ensures Lists(Apply(s, step).tables, d, c) <==> Subscribed(Lists(s.tables, d, c), [step], d, c)
    ensures d in Apply(s, step).tables.pinned <==> AskedFor(d in s.tables.pinned, [step], d)
  {
    hide Apply;
    assert [step][..0] == [];
    if Quiet(step) {
      QuietTables(s, step);
    } else {
      BusyStepLists(s, step, d, c);
    }
  }

  lemma WithoutSubscriberLists(t: Tables, e: DeviceId, x: Client, d: DeviceId, c: Client)
    ensures var t' := WithoutSubscriber(t, e, x).tables;
            && (Lists(t', d, c) <==> !(e == d && x == c) && Lists(t, d, c))
            && t'.pinned == t.pinned
  {
    hide Waiters;
    if e in t.subscribers && c in t.subscribers[e] && c != x { assert c in t.subscribers[e] - {x}; }
  }

  lemma WithoutWaiterLists(t: Tables, e: DeviceId, q: QueueId)
    ensures var t' := WithoutWaiter(t, e, q).tables; t'.subscribers == t.subscribers && t'.pinned == t.pinned
  {
    hide Waiters, Remove;
  }

  lemma AskStepLists(s: System, step: Step, d: DeviceId, c: Client)
    requires Enabled(s, step) && (step.Subscribe? || step.Ensure? || step.Close?)
    ensures var t := Apply(s, step).tables;
            && (Lists(t, d, c) <==>
                !step.Close? && ((step.Subscribe? && step.d == d && step.c == c) || Lists(s.tables, d, c)))
            && (d in t.pinned <==> !step.Close? && ((step.Ensure? && step.d == d) || d in s.tables.pinned))
  {
    hide Waited, Started, CleanedUp, Took, Recorded, Delivered, Retiring, WithoutSubscriber;
  }

  lemma RegisterLists(s: System, d: DeviceId, w: Wanted)
    ensures var t := Register(s, d, w).tables; t.subscribers == s.tables.subscribers && t.pinned == s.tables.pinned
  {
    hide History, Waiters;
  }

  lemma WaitLists(s: System, d: DeviceId, w: Wanted)
    ensures var t := Waited(s, d, w).tables; t.subscribers == s.tables.subscribers && t.pinned == s.tables.pinned
  {
    hide Newest, Recent, History, Register;
    RegisterLists(s, d, w);
  }

  lemma StartLists(s: System)
    requires s.lock.Starting?
    ensures var t := Started(s).tables; t.subscribers == s.tables.subscribers && t.pinned == s.tables.pinned
  {
    hide Register;
    if s.lock.purpose.ForWaiter? { RegisterLists(Stored(s), s.lock.device, s.lock.purpose.wanted); }
  }

  lemma OtherStepLists(s: System, step: Step)
    requires Enabled(s, step) && (step.Wait? || step.StartOk? || step.StartFail?)
    ensures var t := Apply(s, step).tables; t.subscribers == s.tables.subscribers && t.pinned == s.tables.pinned
  {
    hide Waited, Started, WithoutSubscriber, CleanedUp, ClosedDown, Took, Recorded, Delivered, Retiring, WithPin;
    match step
    case Wait(d, w) => WaitLists(s, d, w);
    case StartOk => StartLists(s);
    case _ =>
  }

  lemma CleanupLists(s: System, q: QueueId)
    requires q in s.calls && s.calls[q].phase.Leaving?
    ensures var t := CleanedUp(s, q).tables; t.subscribers == s.tables.subscribers && t.pinned == s.tables.pinned
  {
    hide WithoutWaiter;
    WithoutWaiterLists(s.tables, s.calls[q].device, q);
  }

  lemma BusyStepLists(s: System, step: Step, d: DeviceId, c: Client)
    requires Enabled(s, step) && !Quiet(step)
    ensures Lists(Apply(s, step).tables, d, c) <==>
            match step
            case Subscribe(e, x) => (e == d && x == c) || Lists(s.tables, d, c)
            case Unsubscribe(e, x) => !(e == d && x == c) && Lists(s.tables, d, c)
            case Close => false
            case _ => Lists(s.tables, d, c)
    ensures d in Apply(s, step).tables.pinned <==>
            match step
            case Ensure(e) => e == d || d in s.tables.pinned
            case Close => false
            case _ => d in s.tables.pinned
  {
    if step.Unsubscribe? {
      assert Apply(s, step).tables == WithoutSubscriber(s.tables, step.d, step.c).tables by { hide WithoutSubscriber; }
      hide *;
      WithoutSubscriberLists(s.tables, step.d, step.c, d, c);
    } else if step.Cleanup? {
      assert Apply(s, step) == CleanedUp(s, step.q) by { hide CleanedUp; }
      hide Apply, CleanedUp;
      CleanupLists(s, step.q);
    } else if step.Wait? || step.StartOk? || step.StartFail? {
      hide Apply;
      OtherStepLists(s, step);
    } else {
      hide Apply;
      AskStepLists(s, step, d, c);
    }
  }

  lemma {:induction false} RunsList(s: System, steps: seq<Step>, d: DeviceId, c: Client)
    requires IsRun(s, steps)
    ensures Lists(Execute(s, steps).tables, d, c) <==> Subscribed(Lists(s.tables, d, c), steps, d, c)
    ensures d in Execute(s, steps).tables.pinned <==> AskedFor(d in s.tables.pinned, steps, d)
    decreases |steps|
  {
    hide Apply, Lists;
    if steps == [] {
    } else {
      StepLists(s, steps[0], d, c);
      FirstStepTells(Lists(s.tables, d, c), steps, d, c);
      FirstStepTells(d in s.tables.pinned, steps, d, c);
      hide Subscribed, AskedFor;
      RunsList(Apply(s, steps[0]), steps[1..], d, c);
    }
  }

  /** Over every run: a client is listed for a device if and only if the last of the run's subscriptions of it,
      unsubscriptions of it and closes is a subscription; and a device is pinned if and only if it was asked for since
      the last close. */
  lemma ListedSinceSubscribed(steps: seq<Step>, d: DeviceId, c: Client)
    requires IsRun(INIT, steps)
    ensures Lists(Execute(INIT, steps).tables, d, c) <==> Subscribed(false, steps, d, c)
    ensures d in Execute(INIT, steps).tables.pinned <==> AskedFor(false, steps, d)
  {
    hide Execute, IsRun, Subscribed, AskedFor;
    RunsList(INIT, steps, d, c);
  }

  // ----- the latest event under a fair lock -----

  /** Handlers get the lock in the order in which they asked for it. */
  ghost predicate Fair(steps: seq<Step>) {
    forall k :: 0 <= k < |steps| && steps[k].Record? ==> steps[k].i == 0
  }

  /** The newest event of a device among the handlers waiting for the lock. */
  function LastFor(arrived: seq<Event>, d: DeviceId): Option<Event> {
    if arrived == [] then None
    else if arrived[|arrived| - 1].device == d then Some(arrived[|arrived| - 1])
    else LastFor(arrived[..|arrived| - 1], d)
  }

  function Last(es: seq<Event>): Option<Event> {
    if es == [] then None else Some(es[|es| - 1])
  }

  /** A device's latest event is the newest one waiting for the lock, or else the newest one recorded. */
  predicate LatestFor(s: System, d: DeviceId) {
    (if d in s.tables.latest then Some(s.tables.latest[d]) else None) ==
    if LastFor(s.arrived, d).Some? then LastFor(s.arrived, d) else Last(History(s, d))
  }

  ghost predicate LatestIsNewest(s: System) {
    forall d :: LatestFor(s, d)
  }

  lemma {:induction false} LastForTail(arrived: seq<Event>, d: DeviceId)
    requires arrived != []
    ensures LastFor(arrived, d) ==
            if LastFor(arrived[1..], d).Some? then LastFor(arrived[1..], d)
            else if arrived[0].device == d then Some(arrived[0]) else None
  {
    if |arrived| > 1 {
      LastForTail(arrived[..|arrived| - 1], d);
      assert arrived[..|arrived| - 1][1..] == arrived[1..][..|arrived| - 2];
    }
  }

  lemma ArriveLatest(s: System, e: Event)
    requires LatestIsNewest(s)
    ensures LatestIsNewest(Apply(s, Arrive(e)))
  {
    var t := Apply(s, Arrive(e));
    assert t.arrived[..|s.arrived|] == s.arrived;
    forall d ensures LatestFor(t, d) {
      assert LatestFor(s, d) && History(t, d) == History(s, d);
    }
  }

  lemma RecordLatest(s: System)
    requires LatestIsNewest(s) && s.arrived != []
    ensures LatestIsNewest(Recorded(s, 0))
  {
    hide LastN, LastFor;
    var t := Recorded(s, 0);
    assert t.arrived == s.arrived[1..];
    forall d ensures LatestFor(t, d) {
      assert LatestFor(s, d);
      LastForTail(s.arrived, d);
    }
  }

  lemma SameLatest(s: System, t: System)
    requires LatestIsNewest(s) && t.arrived == s.arrived && t.history == s.history && t.tables.latest == s.tables.latest
    ensures LatestIsNewest(t)
  {
    forall d ensures LatestFor(t, d) {
      assert LatestFor(s, d) && History(t, d) == History(s, d);
    }
  }

  lemma LatestKept(s: System, step: Step)
    requires LatestIsNewest(s) && Enabled(s, step) && (step.Record? ==> step.i == 0)
    ensures LatestIsNewest(Apply(s, step))
  {
    hide LatestIsNewest, Apply, Recorded;
    if step.Arrive? {
      ArriveLatest(s, step.e);
    } else if step.Record? {
      RecordLatest(s);
      RecordIs(s, 0);
    } else {
      OnlyRecordWrites(s, step);
      SameLatest(s, Apply(s, step));
    }
  }

  lemma {:induction false} FairRunsKeepLatest(s: System, steps: seq<Step>)
    requires LatestIsNewest(s) && IsRun(s, steps) && Fair(steps)
    ensures LatestIsNewest(Execute(s, steps))
    decreases |steps|
  {
    hide LatestIsNewest, Apply;
    if steps == [] {
    } else {
      LatestKept(s, steps[0]);
      FairRunsKeepLatest(Apply(s, steps[0]), steps[1..]);
    }
  }

  /** With a first-come lock, the latest event of a device is the newest of its ring whenever no handler for the
      device waits for the lock. */
  lemma LatestIsRingEnd(steps: seq<Step>, d: DeviceId)
    requires IsRun(INIT, steps) && Fair(steps)
    requires LastFor(Execute(INIT, steps).arrived, d).None?
    ensures var s := Execute(INIT, steps);
            && (d in s.tables.latest <==> Recent(s.tables, d) != [])
            && (d in s.tables.latest ==> s.tables.latest[d] == Recent(s.tables, d)[|Recent(s.tables, d)| - 1])
  {
    hide Execute, IsRun, Apply, Registered, Conserved, Judged, InDemand, HandlesSettled;
    FairRunsKeepLatest(INIT, steps);
    var s := Execute(INIT, steps);
    assert Reachable(s);
    ReachableIsGood(s);
    assert LatestFor(s, d) && Recent(s.tables, d) == LastN(History(s, d), RECENT_EVENTS_LIMIT);
  }
}
