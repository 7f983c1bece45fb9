/** The peer table of device-to-device mode: presence messages, graceful departures, pruning, and the notifications
    that each of them owes the listeners. */
module Presence {
  import opened Text

  type PeerId = string

  const PEER_TIMEOUT: real := 30.0
  const PRUNE_INTERVAL: real := 15.0

  /** A notification still to be delivered, or delivered already. */
  datatype Notice = Joined(peer: PeerId) | Removed(peer: PeerId)

  /** When each peer was last seen. */
  type Peers = map<PeerId, real>

  // ----- the regions between awaits -----

  datatype Change = Change(peers: Peers, notices: seq<Notice>)

  /** `_on_presence`: messages without an id and the collector's own are ignored. */
  function OnPresence(peers: Peers, self: PeerId, peer: PeerId, departing: bool, now: real): Change {
    if peer == "" || peer == self then Change(peers, [])
    else if departing then Change(peers - {peer}, if peer in peers then [Removed(peer)] else [])
    else Change(peers[peer := now], if peer in peers then [] else [Joined(peer)])
  }

  predicate Stale(seen: real, now: real) {
    now - seen > PEER_TIMEOUT
  }

  function Fresh(peers: Peers, now: real): Peers {
    map p | p in peers && !Stale(peers[p], now) :: peers[p]
  }

  /** One pass of the prune loop removes the stale peers and owes a notification for each, in table order. */
  ghost predicate IsPrune(peers: Peers, now: real, c: Change) {
    && c.peers == Fresh(peers, now)
    && (forall p :: Removed(p) in c.notices <==> p in peers && Stale(peers[p], now))
    && (forall n :: n in c.notices ==> n.Removed?)
    && (forall i, j :: 0 <= i < j < |c.notices| ==> c.notices[i] != c.notices[j])
  }

  class PresenceCollector {
    const self: PeerId
    var peers: Peers

    constructor (self: PeerId)
      ensures this.self == self && peers == map[]
    {
      this.self := self;
      peers := map[];
    }

    method Handle(peer: PeerId, departing: bool, now: real) returns (notices: seq<Notice>)
      modifies this
      ensures Change(peers, notices) == OnPresence(old(peers), self, peer, departing, now)
    {
      notices := [];
      if peer == "" || peer == self { return; }
      if departing {
        var known := peer in peers;
        peers := peers - {peer};
        if known { notices := [Removed(peer)]; }
        return;
      }
      var isNew := peer !in peers;
      peers := peers[peer := now];
      if isNew { notices := [Joined(peer)]; }
    }

    /** The peers that a prune pass finds stale, in table order. */
    method FindStale(order: seq<PeerId>, now: real) returns (stale: seq<PeerId>)
      requires forall p :: p in order <==> p in peers
      requires forall i, j :: 0 <= i < j < |order| ==> order[i] != order[j]
      ensures forall p :: p in stale <==> p in peers && Stale(peers[p], now)
      ensures forall a, b :: 0 <= a < b < |stale| ==> stale[a] != stale[b]
    {
      hide Stale;
      stale := [];
      for i := 0 to |order|
        invariant forall p :: p in stale <==> p in order[..i] && Stale(peers[p], now)
        invariant forall a, b :: 0 <= a < b < |stale| ==> stale[a] != stale[b]
      {
        assert order[..i + 1] == order[..i] + [order[i]];
        if Stale(peers[order[i]], now) { stale := stale + [order[i]]; }
      }
      assert order[..|order|] == order;
    }

    /** One pass of `_prune_loop` over the table, whose entries `order` lists. */
    method Prune(order: seq<PeerId>, now: real) returns (notices: seq<Notice>)
      requires forall p :: p in order <==> p in peers
      requires forall i, j :: 0 <= i < j < |order| ==> order[i] != order[j]
      modifies this
      ensures IsPrune(old(peers), now, Change(peers, notices))
    {
      hide Stale;
      var stale := FindStale(order, now);
      notices := [];
      for i := 0 to |stale|
        invariant peers.Keys == old(peers).Keys - (set p | p in stale[..i])
        invariant forall p :: p in peers ==> peers[p] == old(peers)[p]
        invariant |notices| == i && forall k :: 0 <= k < i ==> notices[k] == Removed(stale[k])
      {
        assert stale[..i + 1] == stale[..i] + [stale[i]];
        peers := peers - {stale[i]};
        notices := notices + [Removed(stale[i])];
      }
      assert stale[..|stale|] == stale;
      assert forall p :: p in stale ==> exists k :: 0 <= k < |stale| && stale[k] == p;
      assert forall p :: p in stale ==> Removed(p) in notices;
    }
  }

  // ----- runs -----

  /** The table, the notifications owed and those delivered, and the clock. `passed` is the time of the last prune
      pass, or the start. */
  datatype World = World(
    self: PeerId, peers: Peers, pending: multiset<Notice>, delivered: multiset<Notice>, now: real, passed: real)

  function Start(self: PeerId): World {
    World(self, map[], multiset{}, multiset{}, 0.0, 0.0)
  }

  datatype Step =
    | Message(peer: PeerId, departing: bool)
    | Pass(notices: seq<Notice>)
    | Notify(n: Notice)
    | Tick(now: real)

  ghost predicate Enabled(w: World, step: Step) {
    match step
    case Message(_, _) => true
    case Pass(notices) => IsPrune(w.peers, w.now, Change(Fresh(w.peers, w.now), notices))
    case Notify(n) => n in w.pending
    case Tick(now) => now >= w.now
  }

  ghost function Next(w: World, step: Step): World
    requires Enabled(w, step)
  {
    match step
    case Message(p, departing) =>
      var c := OnPresence(w.peers, w.self, p, departing, w.now);
      w.(peers := c.peers, pending := w.pending + multiset(c.notices))
    case Pass(notices) => w.(peers := Fresh(w.peers, w.now), pending := w.pending + multiset(notices), passed := w.now)
    case Notify(n) => w.(pending := w.pending - multiset{n}, delivered := w.delivered + multiset{n})
    case Tick(now) => w.(now := now)
  }

  ghost predicate IsRun(w: World, steps: seq<Step>)
    decreases |steps|
  {
    steps == [] || (Enabled(w, steps[0]) && IsRun(Next(w, steps[0]), steps[1..]))
  }

  ghost function Execute(w: World, steps: seq<Step>): World
    requires IsRun(w, steps)
    decreases |steps|
  {
    if steps == [] then w else Execute(Next(w, steps[0]), steps[1..])
  }

  // ----- accounting -----

  ghost function Total(w: World, n: Notice): int {
    (w.pending + w.delivered)[n]
  }

  ghost predicate AccountedFor(w: World, p: PeerId) {
    Total(w, Joined(p)) - Total(w, Removed(p)) == if p in w.peers then 1 else 0
  }

  /** Joins less leaves, delivered or owed, tell whether a peer is in the table; the collector's own id never is. */
  ghost predicate Accounted(w: World) {
    && (forall p :: AccountedFor(w, p))
    && w.self !in w.peers && "" !in w.peers
  }

  /** How old an entry can be: no older at the last pass than the timeout, unless it came in later. */
  ghost predicate Aged(w: World) {
    && w.passed <= w.now
    && forall p :: p in w.peers ==> w.peers[p] <= w.now && w.passed - w.peers[p] <= PEER_TIMEOUT
  }

  lemma CountOnce(notices: seq<Notice>, n: Notice)
    requires forall i, j :: 0 <= i < j < |notices| ==> notices[i] != notices[j]
    ensures multiset(notices)[n] == if n in notices then 1 else 0
    decreases |notices|
  {
    if notices != [] {
      assert notices == [notices[0]] + notices[1..];
      CountOnce(notices[1..], n);
      assert notices[0] !in notices[1..];
    }
  }

  lemma NextAccounted(w: World, step: Step)
    requires Accounted(w) && Enabled(w, step)
    ensures Accounted(Next(w, step))
  {
    var t := Next(w, step);
    forall p ensures AccountedFor(t, p) {
      assert AccountedFor(w, p);
      if step.Pass? {
        CountOnce(step.notices, Removed(p));
        CountOnce(step.notices, Joined(p));
      }
    }
  }

  lemma NextAged(w: World, step: Step)
    requires Aged(w) && Enabled(w, step)
    ensures Aged(Next(w, step))
  {
  }

  lemma {:induction false} RunsKeep(w: World, steps: seq<Step>)
    requires Accounted(w) && Aged(w) && IsRun(w, steps)
    ensures Accounted(Execute(w, steps)) && Aged(Execute(w, steps)) && Execute(w, steps).self == w.self
    decreases |steps|
  {
    hide Accounted, Aged;
    if steps == [] {
    } else {
      NextAccounted(w, steps[0]);
      NextAged(w, steps[0]);
      RunsKeep(Next(w, steps[0]), steps[1..]);
    }
  }

  lemma {:induction false} NoticesFor(stale: set<PeerId>) returns (notices: seq<Notice>)
    ensures forall n :: n in notices <==> n.Removed? && n.peer in stale
    ensures forall i, j :: 0 <= i < j < |notices| ==> notices[i] != notices[j]
    decreases |stale|
  {
    if stale == {} {
      notices := [];
    } else {
      var p :| p in stale;
      notices := NoticesFor(stale - {p});
      notices := notices + [Removed(p)];
    }
  }

  /** In every state a prune pass is possible, and what is owed can be delivered. */
  lemma PassIsPossible(w: World) returns (notices: seq<Notice>)
    ensures Enabled(w, Pass(notices))
    ensures forall n :: n in w.pending ==> Enabled(w, Notify(n)) && n in Next(w, Notify(n)).delivered
  {
    notices := NoticesFor(set p | p in w.peers && Stale(w.peers[p], w.now));
  }

  // ----- when a peer was last heard of -----

  /** The time of a peer's last message, from a run that starts at time `now`: a departure forgets it, and so does a
      prune pass more than thirty seconds later. */
  function LastHeard(now: real, last: Option<real>, steps: seq<Step>, p: PeerId): Option<real>
    decreases |steps|
  {
    if steps == [] then last
    else
      var rest := steps[1..];
      match steps[0]
      case Message(q, departing) =>
        LastHeard(now, if q != p then last else if departing then None else Some(now), rest, p)
      case Pass(_) => LastHeard(now, if last.Some? && now - last.value > 30.0 then None else last, rest, p)
      case Notify(_) => LastHeard(now, last, rest, p)
      case Tick(t) => LastHeard(t, last, rest, p)
  }

  function Entry(peers: Peers, p: PeerId): Option<real> {
    if p in peers then Some(peers[p]) else None
  }

  lemma StepHeard(w: World, step: Step, p: PeerId)
    requires Enabled(w, step) && p != "" && p != w.self
    ensures var t := Next(w, step);
            && t.self == w.self && t.now == (if step.Tick? then step.now else w.now)
            && Entry(t.peers, p) ==
               match step
               case Message(q, departing) =>
                 if q != p then Entry(w.peers, p) else if departing then None else Some(w.now)
               case Pass(_) => if p in w.peers && w.now - w.peers[p] > 30.0 then None else Entry(w.peers, p)
               case _ => Entry(w.peers, p)
  {
    hide IsPrune;
  }

  lemma {:induction false} RunsHear(w: World, steps: seq<Step>, p: PeerId)
    requires IsRun(w, steps) && p != "" && p != w.self
    ensures Entry(Execute(w, steps).peers, p) == LastHeard(w.now, Entry(w.peers, p), steps, p)
    decreases |steps|
  {
    hide Next, Enabled;
    if steps == [] {
    } else {
      StepHeard(w, steps[0], p);
      RunsHear(Next(w, steps[0]), steps[1..], p);
    }
  }

  // ----- main results -----

  /** Over every run, the table tells of each other peer exactly when it was last heard of. */
  lemma TableIsLastHeard(self: PeerId, steps: seq<Step>, p: PeerId)
    requires IsRun(Start(self), steps) && p != "" && p != self
    ensures var peers := Execute(Start(self), steps).peers;
            (if p in peers then Some(peers[p]) else None) == LastHeard(0.0, None, steps, p)
  {
    hide Execute, IsRun, LastHeard;
    RunsHear(Start(self), steps, p);
  }

  /** Over every run: for each peer the joins less the leaves, owed or delivered, are one if it is in the table and
      none if not; the collector never lists itself. */
  lemma NotificationsAddUp(self: PeerId, steps: seq<Step>, p: PeerId)
    requires IsRun(Start(self), steps)
    ensures var w := Execute(Start(self), steps);
            && Total(w, Joined(p)) - Total(w, Removed(p)) == (if p in w.peers then 1 else 0)
            && self !in w.peers
  {
    hide Execute, IsRun;
    RunsKeep(Start(self), steps);
    assert AccountedFor(Execute(Start(self), steps), p);
  }

  /** Right after a prune pass no entry is older than the timeout; as long as passes are no further apart than the
      prune interval, none ever gets older than both together. */
  lemma EntriesStayYoung(self: PeerId, steps: seq<Step>, p: PeerId)
    requires IsRun(Start(self), steps) && p in Execute(Start(self), steps).peers
    ensures var w := Execute(Start(self), steps);
            && w.passed - w.peers[p] <= 30.0
            && (w.now - w.passed <= 15.0 ==> w.now - w.peers[p] <= 45.0)
  {
    hide Execute, IsRun;
    RunsKeep(Start(self), steps);
  }
}
