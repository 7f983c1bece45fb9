/** The registry client at work: any number of calls between their awaits, and invalidations at any moment. */
module RegistryRuns {
  import opened Text
  import opened Registry

  // ----- the client between awaits -----

  /** Which call filled the cache, and at which step of the run. */
  datatype Origin = Origin(call: nat, stored: nat)

  /** Waiting for a page, holding a complete listing, or answered. */
  datatype Phase = Fetching | Fetched | Answered(outcome: Outcome)

  /** A call of `list_devices` that looked at the cache in step `looked` of the run, at time `now`; `origin` is there if
      it was answered from the cache. */
  datatype Flight = Flight(
    q: Query, now: real, looked: nat, origin: Option<Origin>, pages: seq<Reply>, got: seq<Device>, offset: int,
    phase: Phase)

  datatype Client = Client(memory: Memory, origin: Option<Origin>, flights: seq<Flight>, clock: nat)

  const IDLE := Client(NOTHING, None, [], 0)

  datatype Step =
    | Look(q: Query, now: real)
    | Page(c: nat, reply: Reply)
    | Store(c: nat, later: real)
    | Invalidate

  predicate Enabled(s: Client, step: Step) {
    match step
    case Look(_, _) => true
    case Page(c, _) => c < |s.flights| && s.flights[c].phase.Fetching?
    case Store(c, _) => c < |s.flights| && s.flights[c].phase.Fetched?
    case Invalidate => true
  }

  function Looked(ttl: real, s: Client, q: Query, now: real): Flight {
    if UsesCache(ttl, s.memory, q, now) then
      Flight(q, now, s.clock, s.origin, [], [], 0, Answered(Done(Kept(s.memory.cache.value, q))))
    else Flight(q, now, s.clock, None, [], [], 0, Fetching)
  }

  function Paged(f: Flight, reply: Reply): Flight {
    var (got, offset, o) := Receive(f.q.where_.Some?, f.got, f.offset, reply);
    f.(pages := f.pages + [reply], got := got, offset := offset,
       phase := if o.Paging? then Fetching else if o.Done? then Fetched else Answered(o))
  }

  function Next(ttl: real, s: Client, step: Step): Client
    requires Enabled(s, step)
  {
    var t := s.(clock := s.clock + 1);
    match step
    case Look(q, now) => t.(flights := s.flights + [Looked(ttl, s, q, now)])
    case Page(c, reply) => t.(flights := s.flights[c := Paged(s.flights[c], reply)])
    case Store(c, later) =>
      var f := s.flights[c];
      t.(flights := s.flights[c := f.(phase := Answered(Done(f.got)))],
         memory := Stored(ttl, s.memory, f.q, f.got, later),
         origin := if ttl > 0.0 && Unfiltered(f.q) then Some(Origin(c, s.clock)) else s.origin)
    case Invalidate => t.(memory := NOTHING, origin := None)
  }

  predicate IsRun(ttl: real, steps: seq<Step>)
    decreases |steps|, 0
  {
    steps == [] ||
    var n := |steps| - 1;
    IsRun(ttl, steps[..n]) && Enabled(Run(ttl, steps[..n]), steps[n])
  }

  function Run(ttl: real, steps: seq<Step>): Client
    requires IsRun(ttl, steps)
    decreases |steps|, 1
  {
    if steps == [] then IDLE
    else
      var n := |steps| - 1;
      Next(ttl, Run(ttl, steps[..n]), steps[n])
  }

  // ----- what a call has received -----

  /** What a call holds after its pages. */
  function After(where_: bool, pages: seq<Reply>): (seq<Device>, int, Outcome) {
    if pages == [] then ([], 0, Paging)
    else
      var n := |pages| - 1;
      var (got, offset, o) := After(where_, pages[..n]);
      if o.Paging? then Receive(where_, got, offset, pages[n]) else (got, offset, o)
  }

  lemma {:induction false} AfterCollects(where_: bool, pages: seq<Reply>, more: seq<Reply>)
    ensures var (got, offset, o) := After(where_, pages);
            Collect(where_, [], 0, pages + more) == if o.Paging? then Collect(where_, got, offset, more) else o
    decreases |pages|
  {
    hide Receive;
    if pages == [] {
      assert pages + more == more;
    } else {
      var n := |pages| - 1;
      AfterCollects(where_, pages[..n], [pages[n]] + more);
      assert pages + more == pages[..n] + ([pages[n]] + more);
      assert ([pages[n]] + more)[1..] == more;
    }
  }

  /** Pages that make a complete listing of the fleet. */
  ghost predicate Whole(where_: bool, pages: seq<Reply>, fleet: seq<Device>) {
    exists n :: 0 < n <= |pages| && Complete(where_, 0, pages[..n]) && fleet == AllDevices(pages[..n])
  }

  lemma DoneIsWhole(where_: bool, pages: seq<Reply>)
    requires After(where_, pages).2.Done?
    ensures Whole(where_, pages, After(where_, pages).2.devices)
  {
    hide Collect, Complete, AllDevices, After;
    AfterCollects(where_, pages, []);
    assert pages + [] == pages;
    DoneIffComplete(where_, [], 0, pages);
    var n :| 0 < n <= |pages| && Complete(where_, 0, pages[..n]);
    assert [] + AllDevices(pages[..n]) == AllDevices(pages[..n]);
  }

  // ----- what every run keeps -----

  predicate Received(f: Flight) {
    var (got, offset, o) := After(f.q.where_.Some?, f.pages);
    match f.phase
    case Fetching => o == Paging && got == f.got && offset == f.offset
    case Fetched => o == Done(f.got)
    case Answered(outcome) => o == outcome
  }

  /** The fleet was listed, in full and without filters, by the call that stored it at that step and time. */
  predicate IsOrigin(org: Origin, fleet: seq<Device>, at: real, flights: seq<Flight>, steps: seq<Step>) {
    && org.call < |flights| && org.stored < |steps| && steps[org.stored] == Store(org.call, at)
    && var f := flights[org.call];
       && Unfiltered(f.q) && f.looked < org.stored && f.origin.None?
       && f.phase == Answered(Done(fleet)) && After(false, f.pages).2 == Done(fleet)
  }

  /** The step at which the origin of a served call was stored tells the time. */
  function StoredAt(org: Origin, steps: seq<Step>): real {
    if org.stored < |steps| && steps[org.stored].Store? then steps[org.stored].later else 0.0
  }

  function ListedBy(org: Origin, flights: seq<Flight>): seq<Device> {
    if org.call < |flights| && flights[org.call].phase.Answered? && flights[org.call].phase.outcome.Done? then
      flights[org.call].phase.outcome.devices
    else []
  }

  /** No invalidation falls between two steps. */
  predicate Undisturbed(steps: seq<Step>, from: nat, to: nat) {
    forall k :: from <= k < to && k < |steps| ==> !steps[k].Invalidate?
  }

  /** A call answered from the cache: young enough, of a listing not invalidated since it was stored. */
  predicate Served(ttl: real, f: Flight, org: Origin, flights: seq<Flight>, steps: seq<Step>) {
    var fleet, at := ListedBy(org, flights), StoredAt(org, steps);
    && IsOrigin(org, fleet, at, flights, steps) && org.stored < f.looked
    && f.q.where_.None? && f.now - at < ttl && f.phase == Answered(Done(Kept(fleet, f.q)))
    && Undisturbed(steps, org.stored, f.looked)
  }

  predicate FlightSound(ttl: real, f: Flight, flights: seq<Flight>, steps: seq<Step>) {
    && f.looked < |steps| && steps[f.looked] == Look(f.q, f.now)
    && if f.origin.None? then Received(f) else Served(ttl, f, f.origin.value, flights, steps)
  }

  predicate CacheSound(s: Client, steps: seq<Step>) {
    && (s.memory.cache.Some? <==> s.origin.Some?)
    && (s.origin.Some? ==>
          && IsOrigin(s.origin.value, s.memory.cache.value, s.memory.at, s.flights, steps)
          && Undisturbed(steps, s.origin.value.stored, |steps|))
  }

  ghost predicate Sound(ttl: real, s: Client, steps: seq<Step>) {
    && s.clock == |steps|
    && (forall c :: 0 <= c < |s.flights| ==> FlightSound(ttl, s.flights[c], s.flights, steps))
    && CacheSound(s, steps)
  }

  /** Calls are added, and those answered stay as they are. */
  predicate Grows(flights: seq<Flight>, more: seq<Flight>) {
    |flights| <= |more| && forall c :: 0 <= c < |flights| && flights[c].phase.Answered? ==> more[c] == flights[c]
  }

  lemma NextGrows(ttl: real, s: Client, step: Step)
    requires Enabled(s, step)
    ensures Grows(s.flights, Next(ttl, s, step).flights)
  {
    hide Looked, Paged, Stored;
  }

  lemma OriginStays(org: Origin, fleet: seq<Device>, at: real, flights: seq<Flight>, steps: seq<Step>,
                    more: seq<Flight>, step: Step)
    requires IsOrigin(org, fleet, at, flights, steps) && Grows(flights, more)
    ensures IsOrigin(org, fleet, at, more, steps + [step])
    ensures ListedBy(org, more) == fleet && StoredAt(org, steps + [step]) == at
  {
    hide After;
  }

  lemma ServedStays(ttl: real, f: Flight, org: Origin, flights: seq<Flight>, steps: seq<Step>, more: seq<Flight>,
                    step: Step)
    requires Served(ttl, f, org, flights, steps) && f.looked < |steps| && Grows(flights, more)
    ensures Served(ttl, f, org, more, steps + [step])
  {
    hide IsOrigin, ListedBy, StoredAt, Grows;
    OriginStays(org, ListedBy(org, flights), StoredAt(org, steps), flights, steps, more, step);
  }

  lemma FlightStays(ttl: real, f: Flight, flights: seq<Flight>, steps: seq<Step>, more: seq<Flight>, step: Step)
    requires FlightSound(ttl, f, flights, steps) && Grows(flights, more)
    ensures FlightSound(ttl, f, more, steps + [step])
  {
    hide Served, Received, Grows;
    if f.origin.Some? { ServedStays(ttl, f, f.origin.value, flights, steps, more, step); }
  }

  lemma PagedReceived(f: Flight, reply: Reply)
    requires Received(f) && f.phase.Fetching?
    ensures Received(Paged(f, reply)) && Paged(f, reply).origin == f.origin
    ensures Paged(f, reply).looked == f.looked && Paged(f, reply).q == f.q && Paged(f, reply).now == f.now
  {
    assert (f.pages + [reply])[..|f.pages|] == f.pages;
  }

  lemma LookedSound(ttl: real, s: Client, steps: seq<Step>, q: Query, now: real)
    requires Sound(ttl, s, steps)
    ensures FlightSound(ttl, Looked(ttl, s, q, now), s.flights + [Looked(ttl, s, q, now)], steps + [Look(q, now)])
  {
    hide ListedBy, StoredAt, Kept;
    var f, step := Looked(ttl, s, q, now), Look(q, now);
    var more := s.flights + [f];
    assert (steps + [step])[s.clock] == step;
    if UsesCache(ttl, s.memory, q, now) {
      OriginStays(s.origin.value, s.memory.cache.value, s.memory.at, s.flights, steps, more, step);
    }
  }

  lemma StoredCache(ttl: real, s: Client, steps: seq<Step>, c: nat, later: real)
    requires Sound(ttl, s, steps) && Enabled(s, Store(c, later)) && ttl > 0.0 && Unfiltered(s.flights[c].q)
    ensures CacheSound(Next(ttl, s, Store(c, later)), steps + [Store(c, later)])
  {
    hide After, Served;
    assert FlightSound(ttl, s.flights[c], s.flights, steps);
    NotServed(ttl, s, steps, c);
    assert (steps + [Store(c, later)])[s.clock] == Store(c, later);
  }

  lemma NotServed(ttl: real, s: Client, steps: seq<Step>, c: nat)
    requires Sound(ttl, s, steps) && c < |s.flights| && !s.flights[c].phase.Answered?
    ensures s.flights[c].origin.None?
  {
    hide IsOrigin, ListedBy, StoredAt, Kept;
    assert FlightSound(ttl, s.flights[c], s.flights, steps);
  }

  lemma CacheStays(ttl: real, s: Client, steps: seq<Step>, step: Step)
    requires Sound(ttl, s, steps) && Enabled(s, step) && !step.Invalidate?
    requires Next(ttl, s, step).memory == s.memory && Next(ttl, s, step).origin == s.origin
    ensures CacheSound(Next(ttl, s, step), steps + [step])
  {
    hide IsOrigin, Next, Grows;
    NextGrows(ttl, s, step);
    if s.origin.Some? {
      OriginStays(s.origin.value, s.memory.cache.value, s.memory.at, s.flights, steps, Next(ttl, s, step).flights,
                  step);
    }
  }

  lemma NextCache(ttl: real, s: Client, steps: seq<Step>, step: Step)
    requires Sound(ttl, s, steps) && Enabled(s, step)
    ensures CacheSound(Next(ttl, s, step), steps + [step])
  {
    hide Sound, CacheSound, Looked, Paged;
    match step
    case Store(c, later) =>
      if ttl > 0.0 && Unfiltered(s.flights[c].q) {
        StoredCache(ttl, s, steps, c, later);
      } else {
        CacheStays(ttl, s, steps, step);
      }
    case Invalidate => NothingCached(Next(ttl, s, step), steps + [step]);
    case _ => CacheStays(ttl, s, steps, step);
  }

  lemma NothingCached(s: Client, steps: seq<Step>)
    requires s.memory == NOTHING && s.origin.None?
    ensures CacheSound(s, steps)
  {
  }

  lemma NextFlight(ttl: real, s: Client, steps: seq<Step>, step: Step, c: nat)
    requires Sound(ttl, s, steps) && Enabled(s, step) && c < |Next(ttl, s, step).flights|
    ensures var t := Next(ttl, s, step); FlightSound(ttl, t.flights[c], t.flights, steps + [step])
  {
    hide Looked, Paged, Stored, Served, Received, Grows, CacheSound;
    var t := Next(ttl, s, step);
    NextGrows(ttl, s, step);
    if step.Look? && c == |s.flights| {
      LookedSound(ttl, s, steps, step.q, step.now);
    } else {
      assert FlightSound(ttl, s.flights[c], s.flights, steps);
      FlightStays(ttl, s.flights[c], s.flights, steps, t.flights, step);
      if (step.Page? || step.Store?) && c == step.c {
        NotServed(ttl, s, steps, c);
        if step.Page? { PagedReceived(s.flights[c], step.reply); } else { StoredReceived(s.flights[c]); }
      }
    }
  }

  lemma StoredReceived(f: Flight)
    requires Received(f) && f.phase.Fetched?
    ensures Received(f.(phase := Answered(Done(f.got))))
  {
    hide After;
  }

  lemma {:induction false} RunsAreSound(ttl: real, steps: seq<Step>)
    requires IsRun(ttl, steps)
    ensures Sound(ttl, Run(ttl, steps), steps)
    decreases |steps|
  {
    hide Next, Enabled, FlightSound, CacheSound;
    if steps == [] {
      NothingCached(IDLE, []);
    } else {
      var n := |steps| - 1;
      var s := Run(ttl, steps[..n]);
      RunsAreSound(ttl, steps[..n]);
      assert steps == steps[..n] + [steps[n]];
      NextCache(ttl, s, steps[..n], steps[n]);
      Ticks(ttl, s, steps[n]);
      forall c | 0 <= c < |Run(ttl, steps).flights|
        ensures FlightSound(ttl, Run(ttl, steps).flights[c], Run(ttl, steps).flights, steps)
      {
        NextFlight(ttl, s, steps[..n], steps[n], c);
      }
    }
  }

  lemma Ticks(ttl: real, s: Client, step: Step)
    requires Enabled(s, step)
    ensures Next(ttl, s, step).clock == s.clock + 1
  {
    hide Looked, Paged, Stored;
  }

  /** A call that waits for a page ends with the listing received so far and that page, if it is the last. */
  lemma FetchCanEnd(ttl: real, s: Client, c: nat, devices: seq<Device>, at: real)
    requires c < |s.flights| && s.flights[c].phase.Fetching?
    ensures var page := Page(c, Listing(devices, None, true));
            && Enabled(s, page) && Enabled(Next(ttl, s, page), Store(c, at))
            && var f := Next(ttl, Next(ttl, s, page), Store(c, at)).flights[c];
               f.phase == Answered(Done(s.flights[c].got + devices))
  {
    hide Stored;
  }

  // ----- what fills the cache -----

  /** A call that gives no filter, or an empty list of capabilities. */
  predicate WantsAll(q: Query) {
    q == Query(None, None, None, None) || q == Query(None, None, Some([]), None)
  }

  /** The queries of the calls of a run, in order. */
  function Queries(steps: seq<Step>): seq<Query> {
    if steps == [] then []
    else
      var n := |steps| - 1;
      Queries(steps[..n]) + if steps[n].Look? then [steps[n].q] else []
  }

  /** The call that filled the cache, and when. */
  datatype Filling = Filling(call: nat, at: real)

  /** The last store by a call that wants all, unless the cache was invalidated after it. */
  function Filled(ttl: real, steps: seq<Step>): Option<Filling> {
    if steps == [] then None
    else
      var n := |steps| - 1;
      match steps[n]
      case Invalidate => None
      case Store(c, later) =>
        var asked := Queries(steps[..n]);
        if ttl > 0.0 && c < |asked| && WantsAll(asked[c]) then Some(Filling(c, later)) else Filled(ttl, steps[..n])
      case _ => Filled(ttl, steps[..n])
  }

  /** A call is answered from the cache if it has no predicate and the cache was filled less than the time to live
      before it looked. */
  predicate MayUse(ttl: real, q: Query, now: real, filled: Option<Filling>) {
    q.where_.None? && ttl > 0.0 && filled.Some? && now - filled.value.at < ttl
  }

  ghost predicate FilledBy(ttl: real, s: Client, steps: seq<Step>) {
    && |s.flights| == |Queries(steps)|
    && (forall c :: 0 <= c < |s.flights| ==> s.flights[c].q == Queries(steps)[c])
    && (s.memory.cache.Some? <==> s.origin.Some?)
    && Filled(ttl, steps) == if s.origin.Some? then Some(Filling(s.origin.value.call, s.memory.at)) else None
  }

  ghost predicate ServedIff(ttl: real, f: Flight, steps: seq<Step>) {
    && f.looked < |steps|
    && (f.origin.Some? <==> MayUse(ttl, f.q, f.now, Filled(ttl, steps[..f.looked])))
    && (f.origin.Some? ==> f.origin.value.call == Filled(ttl, steps[..f.looked]).value.call)
  }

  lemma WantsAllIsUnfiltered(q: Query)
    ensures WantsAll(q) <==> Unfiltered(q)
  {
  }

  lemma StepFills(ttl: real, s: Client, steps: seq<Step>, step: Step)
    requires FilledBy(ttl, s, steps) && Enabled(s, step) && s.clock == |steps|
    ensures FilledBy(ttl, Next(ttl, s, step), steps + [step])
  {
    hide Receive, Kept, UsesCache;
    assert (steps + [step])[..|steps|] == steps;
    if step.Store? { WantsAllIsUnfiltered(s.flights[step.c].q); }
    hide WantsAll, Unfiltered;
  }

  lemma StepServes(ttl: real, s: Client, steps: seq<Step>, step: Step, c: nat)
    requires FilledBy(ttl, s, steps) && Enabled(s, step) && s.clock == |steps|
    requires c < |s.flights| ==> ServedIff(ttl, s.flights[c], steps)
    requires c < |Next(ttl, s, step).flights|
    ensures ServedIff(ttl, Next(ttl, s, step).flights[c], steps + [step])
  {
    hide Receive, Kept, Filled, Queries, Stored;
    assert (steps + [step])[..|steps|] == steps;
    var f := Next(ttl, s, step).flights[c];
    if c < |s.flights| { assert (steps + [step])[..f.looked] == steps[..f.looked]; }
  }

  lemma {:induction false} RunsFill(ttl: real, steps: seq<Step>)
    requires IsRun(ttl, steps)
    ensures var s := Run(ttl, steps);
            && FilledBy(ttl, s, steps) && s.clock == |steps|
            && forall c :: 0 <= c < |s.flights| ==> ServedIff(ttl, s.flights[c], steps)
    decreases |steps|
  {
    hide Next, Enabled, ServedIff;
    if steps == [] {
    } else {
      hide FilledBy;
      var n := |steps| - 1;
      var s := Run(ttl, steps[..n]);
      RunsFill(ttl, steps[..n]);
      assert steps == steps[..n] + [steps[n]];
      StepFills(ttl, s, steps[..n], steps[n]);
      Ticks(ttl, s, steps[n]);
      forall c | 0 <= c < |Run(ttl, steps).flights| ensures ServedIff(ttl, Run(ttl, steps).flights[c], steps) {
        StepServes(ttl, s, steps[..n], steps[n], c);
      }
    }
  }

  // ----- main results -----

  /** Over every interleaving, the cache is filled by the last store of a call without filters since the last
      invalidation, and by nothing else; and a call is answered from it if and only if the call has no predicate and the
      cache was filled less than the time to live before it looked. */
  lemma CacheIsUsedIff(ttl: real, steps: seq<Step>, c: nat)
    requires IsRun(ttl, steps)
    ensures var s, filled := Run(ttl, steps), Filled(ttl, steps);
            && (s.memory.cache.Some? <==> filled.Some?)
            && (filled.Some? ==> s.origin.Some? && s.origin.value.call == filled.value.call &&
                                 s.memory.at == filled.value.at)
    ensures var s := Run(ttl, steps);
            |s.flights| == |Queries(steps)|
            && (c < |s.flights| ==>
                  && s.flights[c].q == Queries(steps)[c] && s.flights[c].looked < |steps|
                  && var f := s.flights[c];
                     var filled := Filled(ttl, steps[..f.looked]);
                     && (f.origin.Some? <==>
                         f.q.where_.None? && ttl > 0.0 && filled.Some? && f.now - filled.value.at < ttl)
                     && (f.origin.Some? ==> f.origin.value.call == filled.value.call))
  {
    hide Run, IsRun, Filled, Queries;
    RunsFill(ttl, steps);
    if c < |Run(ttl, steps).flights| { assert ServedIff(ttl, Run(ttl, steps).flights[c], steps); }
  }

  /** Over every interleaving: what is in the cache is a complete listing of the whole fleet, which one call without
      filters received page by page and stored at the cache's time; since then nothing has invalidated it. */
  lemma CacheIsWhole(ttl: real, steps: seq<Step>)
    requires IsRun(ttl, steps) && Run(ttl, steps).memory.cache.Some?
    ensures var s := Run(ttl, steps);
            && s.origin.Some? && s.origin.value.call < |s.flights| && s.origin.value.stored < |steps|
            && var org, f := s.origin.value, s.flights[s.origin.value.call];
               && WantsAll(f.q) && Whole(false, f.pages, s.memory.cache.value)
               && f.looked < org.stored && steps[f.looked] == Look(f.q, f.now)
               && steps[org.stored] == Store(org.call, s.memory.at) && Undisturbed(steps, org.stored, |steps|)
  {
    hide Run, IsRun, Complete, AllDevices, After, Whole, Served, Received;
    RunsAreSound(ttl, steps);
    var s := Run(ttl, steps);
    var f := s.flights[s.origin.value.call];
    assert FlightSound(ttl, f, s.flights, steps);
    DoneIsWhole(false, f.pages);
  }

  /** Over every interleaving: a call that has its answer got a complete listing of its own; or it had no predicate, and
      got the devices passing its filters of a complete unfiltered listing that was stored less than the time to live
      before it looked, and not invalidated in between. */
  lemma AnswersAreWhole(ttl: real, steps: seq<Step>, c: nat)
    requires IsRun(ttl, steps) && c < |Run(ttl, steps).flights|
    requires Run(ttl, steps).flights[c].phase.Answered? && Run(ttl, steps).flights[c].phase.outcome.Done?
    ensures var s := Run(ttl, steps);
            var f := s.flights[c];
            if f.origin.None? then Whole(f.q.where_.Some?, f.pages, f.phase.outcome.devices)
            else
              && f.origin.value.call < |s.flights| && f.origin.value.stored < |steps|
              && var org, g := f.origin.value, s.flights[f.origin.value.call];
                 var fleet := ListedBy(org, s.flights);
                 && WantsAll(g.q) && Whole(false, g.pages, fleet)
                 && f.q.where_.None? && f.phase.outcome == Done(Kept(fleet, f.q))
                 && g.looked < org.stored < f.looked < |steps| && steps[f.looked] == Look(f.q, f.now)
                 && steps[org.stored].Store? && steps[org.stored].c == org.call
                 && f.now - steps[org.stored].later < ttl && Undisturbed(steps, org.stored, f.looked)
  {
    hide Run, IsRun, Complete, AllDevices, After, Whole, CacheSound, Kept;
    RunsAreSound(ttl, steps);
    var s := Run(ttl, steps);
    var f := s.flights[c];
    assert FlightSound(ttl, f, s.flights, steps);
    if f.origin.None? {
      DoneIsWhole(f.q.where_.Some?, f.pages);
    } else {
      DoneIsWhole(false, s.flights[f.origin.value.call].pages);
    }
  }

  /** Over every interleaving: what the cache holds was asked for after the last invalidation if and only if no
      invalidation falls between the look and the store of the call that filled it; and so for every call that was
      answered from the cache, up to the moment when it looked. */
  lemma AskedSinceInvalidationIff(ttl: real, steps: seq<Step>, c: nat)
    requires IsRun(ttl, steps)
    ensures var s := Run(ttl, steps);
            s.memory.cache.Some? ==>
              && s.origin.Some? && s.origin.value.call < |s.flights|
              && var i, j := s.flights[s.origin.value.call].looked, s.origin.value.stored;
                 Undisturbed(steps, i, |steps|) <==> Undisturbed(steps, i, j)
    ensures var s := Run(ttl, steps);
            c < |s.flights| && s.flights[c].origin.Some? ==>
              && s.flights[c].origin.value.call < |s.flights|
              && var f, org := s.flights[c], s.flights[c].origin.value;
                 var i := s.flights[org.call].looked;
                 Undisturbed(steps, i, f.looked) <==> Undisturbed(steps, i, org.stored)
  {
    hide Run, IsRun, After, Received, Kept;
    RunsAreSound(ttl, steps);
    var s := Run(ttl, steps);
    if c < |s.flights| { assert FlightSound(ttl, s.flights[c], s.flights, steps); }
  }

  lemma OneMore(ttl: real, steps: seq<Step>, step: Step)
    requires IsRun(ttl, steps) && Enabled(Run(ttl, steps), step)
    ensures IsRun(ttl, steps + [step]) && Run(ttl, steps + [step]) == Next(ttl, Run(ttl, steps), step)
  {
    hide Next, Enabled;
    assert (steps + [step])[..|steps|] == steps;
  }

  const EVERYTHING := Query(None, None, None, None)

  /** A listing of two pages with an invalidation in between, and a call that looks at the cache afterwards. */
  function AcrossInvalidation(a: Device, b: Device, at: real): seq<Step> {
    [Look(EVERYTHING, at), Page(0, Listing([a], Some(1), true)), Invalidate, Page(0, Listing([b], None, true)),
     Store(0, at), Look(EVERYTHING, at)]
  }

  /** The condition can fail: a call made after the invalidation is answered with a page asked for before it. */
  lemma StaleAfterInvalidation(ttl: real, a: Device, b: Device, at: real)
    requires ttl > 0.0
    ensures var steps := AcrossInvalidation(a, b, at);
            && IsRun(ttl, steps)
            && Run(ttl, steps).memory == Memory(Some([a, b]), at)
            && |Run(ttl, steps).flights| == 2 && Run(ttl, steps).flights[1].phase == Answered(Done([a, b]))
            && !Undisturbed(steps, 0, |steps|)
  {
    hide *;
    var look, invalidate, store := Look(EVERYTHING, at), Invalidate, Store(0, at);
    var first, last := Page(0, Listing([a], Some(1), true)), Page(0, Listing([b], None, true));
    Spelled(a, b, at);
    NoSteps(ttl);
    OneMore(ttl, [], look) by { LooksFirst(ttl, at); }
    LooksFirst(ttl, at);
    OneMore(ttl, [look], first) by { ReceivesFirst(ttl, a, at); }
    ReceivesFirst(ttl, a, at);
    OneMore(ttl, [look, first], invalidate) by { Invalidated(ttl, a, at); }
    Invalidated(ttl, a, at);
    OneMore(ttl, [look, first, invalidate], last) by { ReceivesLast(ttl, a, b, at); }
    ReceivesLast(ttl, a, b, at);
    OneMore(ttl, [look, first, invalidate, last], store) by { StoresStale(ttl, a, b, at); }
    StoresStale(ttl, a, b, at);
    OneMore(ttl, [look, first, invalidate, last, store], look) by { LooksAgain(ttl, a, b, at); }
    LooksAgain(ttl, a, b, at);
  }

  function Half(a: Device, at: real): Flight {
    Flight(EVERYTHING, at, 0, None, [Listing([a], Some(1), true)], [a], 1, Fetching)
  }

  function Full(a: Device, b: Device, at: real, phase: Phase): Flight {
    Flight(EVERYTHING, at, 0, None, [Listing([a], Some(1), true), Listing([b], None, true)], [a, b], 1, phase)
  }

  lemma NoSteps(ttl: real)
    ensures IsRun(ttl, []) && Run(ttl, []) == IDLE
  {
  }

  lemma LooksFirst(ttl: real, at: real)
    ensures Enabled(IDLE, Look(EVERYTHING, at))
    ensures Next(ttl, IDLE, Look(EVERYTHING, at)) ==
            Client(NOTHING, None, [Flight(EVERYTHING, at, 0, None, [], [], 0, Fetching)], 1)
  {
  }

  lemma ReceivesFirst(ttl: real, a: Device, at: real)
    ensures var s := Client(NOTHING, None, [Flight(EVERYTHING, at, 0, None, [], [], 0, Fetching)], 1);
            var page := Page(0, Listing([a], Some(1), true));
            Enabled(s, page) && Next(ttl, s, page) == Client(NOTHING, None, [Half(a, at)], 2)
  {
    var f, reply := Flight(EVERYTHING, at, 0, None, [], [], 0, Fetching), Listing([a], Some(1), true);
    assert f.got + [a] == [a] && f.pages + [reply] == [reply];
    assert Paged(f, reply) == Half(a, at);
    assert [f][0 := Half(a, at)] == [Half(a, at)];
  }

  lemma Invalidated(ttl: real, a: Device, at: real)
    ensures var s := Client(NOTHING, None, [Half(a, at)], 2);
            Enabled(s, Invalidate) && Next(ttl, s, Invalidate) == Client(NOTHING, None, [Half(a, at)], 3)
  {
  }

  lemma ReceivesLast(ttl: real, a: Device, b: Device, at: real)
    ensures var s := Client(NOTHING, None, [Half(a, at)], 3);
            var page := Page(0, Listing([b], None, true));
            Enabled(s, page) && Next(ttl, s, page) == Client(NOTHING, None, [Full(a, b, at, Fetched)], 4)
  {
    var f, reply := Half(a, at), Listing([b], None, true);
    assert f.got + [b] == [a, b] && f.pages + [reply] == Full(a, b, at, Fetched).pages;
    assert Paged(f, reply) == Full(a, b, at, Fetched);
    assert [f][0 := Full(a, b, at, Fetched)] == [Full(a, b, at, Fetched)];
  }

  lemma StoresStale(ttl: real, a: Device, b: Device, at: real)
    requires ttl > 0.0
    ensures var s := Client(NOTHING, None, [Full(a, b, at, Fetched)], 4);
            && Enabled(s, Store(0, at))
            && Next(ttl, s, Store(0, at)) ==
               Client(Memory(Some([a, b]), at), Some(Origin(0, 4)), [Full(a, b, at, Answered(Done([a, b])))], 5)
  {
    var f, g := Full(a, b, at, Fetched), Full(a, b, at, Answered(Done([a, b])));
    assert [f][0 := g] == [g];
  }

  lemma LooksAgain(ttl: real, a: Device, b: Device, at: real)
    requires ttl > 0.0
    ensures var full := Full(a, b, at, Answered(Done([a, b])));
            var s := Client(Memory(Some([a, b]), at), Some(Origin(0, 4)), [full], 5);
            && Enabled(s, Look(EVERYTHING, at))
            && Next(ttl, s, Look(EVERYTHING, at)) ==
               s.(clock := 6,
                  flights := [full,
                              Flight(EVERYTHING, at, 5, Some(Origin(0, 4)), [], [], 0, Answered(Done([a, b])))])
  {
    hide Kept, Full;
    KeptAll([a, b], EVERYTHING);
  }

  lemma Spelled(a: Device, b: Device, at: real)
    ensures var look, invalidate, store := Look(EVERYTHING, at), Invalidate, Store(0, at);
            var first, last := Page(0, Listing([a], Some(1), true)), Page(0, Listing([b], None, true));
            var steps := [look, first, invalidate, last, store, look];
            && steps == AcrossInvalidation(a, b, at) && !Undisturbed(steps, 0, |steps|)
            && [] + [look] == [look] && [look] + [first] == [look, first]
            && [look, first] + [invalidate] == [look, first, invalidate]
            && [look, first, invalidate] + [last] == [look, first, invalidate, last]
            && [look, first, invalidate, last] + [store] == [look, first, invalidate, last, store]
            && [look, first, invalidate, last, store] + [look] == steps
  {
    assert AcrossInvalidation(a, b, at)[2].Invalidate?;
  }
}
