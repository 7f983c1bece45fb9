/** The tables of the event subscription manager and the regions of its methods that run without an await: each
    region as a function on the tables, and the class whose methods carry it out in place. */
module EventManager {
  import opened Text

  type DeviceId = string
  type QueueId = nat
  type Handle = nat

  /** A parameter value; Null is what a missing key reads as. */
  datatype Value = Null | Val(text: string)

  datatype Event = Event(device: DeviceId, name: string, params: map<string, Value>)

  datatype Wanted = Wanted(name: string, params: map<string, Value>)

  /** An MCP session together with the resource it subscribed to. */
  datatype Client = Client(session: nat, uri: string)

  const RECENT_EVENTS_LIMIT: nat := 32

  /** `_matches`: an empty name and an empty parameter map match everything. */
  predicate Matches(e: Event, w: Wanted) {
    && (w.name == "" || e.name == w.name)
    && forall k :: k in w.params ==> (if k in e.params then e.params[k] else Null) == w.params[k]
  }

  datatype Tables = Tables(
    deviceSubs: map<DeviceId, Handle>,
    subscribers: map<DeviceId, set<Client>>,
    latest: map<DeviceId, Event>,
    recent: map<DeviceId, seq<Event>>,
    waiters: map<DeviceId, seq<QueueId>>,
    pinned: set<DeviceId>)

  // ----- reading the tables -----

  function Recent(t: Tables, d: DeviceId): seq<Event> {
    if d in t.recent then t.recent[d] else []
  }

  function Waiters(t: Tables, d: DeviceId): seq<QueueId> {
    if d in t.waiters then t.waiters[d] else []
  }

  /** Somebody needs the device's fabric subscription. */
  predicate Demanded(t: Tables, d: DeviceId) {
    d in t.pinned || d in t.subscribers || d in t.waiters
  }

  /** A client is told of a device's events. */
  predicate Lists(t: Tables, d: DeviceId, c: Client) {
    d in t.subscribers && c in t.subscribers[d]
  }

  /** An event is refused for its name or for one parameter that is missing or different, a missing one reading as Null;
      else it matches. */
  lemma RefusedForReason(e: Event, w: Wanted)
    ensures !Matches(e, w) <==>
            || (w.name != "" && w.name != e.name)
            || exists k :: k in w.params && (k in e.params ==> e.params[k] != w.params[k]) &&
                           (k !in e.params ==> w.params[k] != Null)
  {
  }

  /** The index of the newest matching event of a ring, or -1. */
  function NewestIndex(ring: seq<Event>, w: Wanted): (k: int)
    ensures -1 <= k < |ring|
    ensures k >= 0 ==> Matches(ring[k], w)
    ensures forall j :: k < j < |ring| ==> !Matches(ring[j], w)
  {
    if ring == [] then -1
    else if Matches(ring[|ring| - 1], w) then |ring| - 1
    else NewestIndex(ring[..|ring| - 1], w)
  }

  function Newest(ring: seq<Event>, w: Wanted): Option<Event> {
    var k := NewestIndex(ring, w);
    if k < 0 then None else Some(ring[k])
  }

  /** The last `n` elements, or all of them. */
  function LastN<T>(s: seq<T>, n: nat): (r: seq<T>)
    ensures |r| == if |s| <= n then |s| else n
  {
    if |s| <= n then s else s[|s| - n..]
  }

  /** `list.remove`: the first occurrence goes. */
  function Remove(s: seq<QueueId>, q: QueueId): (r: seq<QueueId>)
    ensures q !in s ==> r == s
  {
    if s == [] then [] else if s[0] == q then s[1..] else [s[0]] + Remove(s[1..], q)
  }

  // ----- the regions -----

  function WithSubscriber(t: Tables, d: DeviceId, c: Client): Tables {
    t.(subscribers := t.subscribers[d := (if d in t.subscribers then t.subscribers[d] else {}) + {c}])
  }

  function WithHandle(t: Tables, d: DeviceId, h: Handle): Tables {
    t.(deviceSubs := t.deviceSubs[d := h])
  }

  function WithPin(t: Tables, d: DeviceId): Tables {
    t.(pinned := t.pinned + {d})
  }

  function WithWaiter(t: Tables, d: DeviceId, q: QueueId): Tables {
    t.(waiters := t.waiters[d := Waiters(t, d) + [q]])
  }

  function WithLatest(t: Tables, e: Event): Tables {
    t.(latest := t.latest[e.device := e])
  }

  function WithEvent(t: Tables, e: Event): Tables {
    t.(recent := t.recent[e.device := LastN(Recent(t, e.device) + [e], RECENT_EVENTS_LIMIT)])
  }

  /** The tables after a removal, and the fabric handle that nobody needs any more. */
  datatype Released = Released(tables: Tables, handle: Option<Handle>)

  function TakeHandle(t: Tables, d: DeviceId): Released {
    Released(t.(deviceSubs := t.deviceSubs - {d}), if d in t.deviceSubs then Some(t.deviceSubs[d]) else None)
  }

  /** The locked region of `unsubscribe`. */
  function WithoutSubscriber(t: Tables, d: DeviceId, c: Client): (r: Released)
    ensures r.tables.recent == t.recent && r.tables.latest == t.latest && r.tables.pinned == t.pinned
  {
    if d !in t.subscribers then Released(t, None)
    else
      var left := t.subscribers[d] - {c};
      if left != {} then Released(t.(subscribers := t.subscribers[d := left]), None)
      else
        var t' := t.(subscribers := t.subscribers - {d});
        if d !in t.pinned && Waiters(t, d) == [] then TakeHandle(t', d) else Released(t', None)
  }

  /** The locked region that ends `wait_for_event`. */
  function WithoutWaiter(t: Tables, d: DeviceId, q: QueueId): (r: Released)
    ensures r.tables.recent == t.recent && r.tables.latest == t.latest && r.tables.pinned == t.pinned
  {
    var left := Remove(Waiters(t, d), q);
    if left != [] then Released(t.(waiters := t.waiters[d := left]), None)
    else
      var t' := t.(waiters := t.waiters - {d});
      if d !in t.subscribers && d !in t.pinned then TakeHandle(t', d) else Released(t', None)
  }

  /** The locked region of `close`; the handles in the table are to be unsubscribed. */
  function Closed(t: Tables): Tables {
    t.(deviceSubs := map[], subscribers := map[], pinned := {}, waiters := map[])
  }

  const NO_TABLES := Tables(map[], map[], map[], map[], map[], {})

  // ----- the manager -----

  /** Each method is one region of the source between two awaits. */
  class EventSubscriptionManager {
    var deviceSubs: map<DeviceId, Handle>
    var subscribers: map<DeviceId, set<Client>>
    var latest: map<DeviceId, Event>
    var recent: map<DeviceId, seq<Event>>
    var waiters: map<DeviceId, seq<QueueId>>
    var pinned: set<DeviceId>

    ghost function State(): Tables
      reads this
    {
      Tables(deviceSubs, subscribers, latest, recent, waiters, pinned)
    }

    constructor ()
      ensures State() == NO_TABLES
    {
      deviceSubs, subscribers, latest, recent, waiters, pinned := map[], map[], map[], map[], map[], {};
    }

    /** `subscribe` up to the start of the fabric subscription, which it asks for when the device has none. */
    method AddSubscriber(d: DeviceId, c: Client) returns (start: bool)
      modifies this
      ensures State() == WithSubscriber(old(State()), d, c)
      ensures forall e, x :: Lists(State(), e, x) <==> Lists(old(State()), e, x) || (e == d && x == c)
      ensures start <==> d !in old(deviceSubs)
    {
      if d !in subscribers { subscribers := subscribers[d := {}]; }
      subscribers := subscribers[d := subscribers[d] + {c}];
      start := d !in deviceSubs;
    }

    method StoreHandle(d: DeviceId, h: Handle)
      modifies this
      ensures State() == WithHandle(old(State()), d, h)
    {
      deviceSubs := deviceSubs[d := h];
    }

    method PopHandle(d: DeviceId) returns (h: Option<Handle>)
      modifies this
      ensures Released(State(), h) == TakeHandle(old(State()), d)
    {
      h := if d in deviceSubs then Some(deviceSubs[d]) else None;
      deviceSubs := deviceSubs - {d};
    }

    /** `unsubscribe`; the handle returned is unsubscribed after the lock is released. */
    method RemoveSubscriber(d: DeviceId, c: Client) returns (h: Option<Handle>)
      modifies this
      ensures Released(State(), h) == WithoutSubscriber(old(State()), d, c)
      ensures forall e, x :: Lists(State(), e, x) <==> Lists(old(State()), e, x) && !(e == d && x == c)
    {
      if d !in subscribers { return None; }
      var subs := subscribers[d] - {c};
      if subs != {} {
        subscribers := subscribers[d := subs];
        return None;
      }
      subscribers := subscribers - {d};
      h := None;
      if d !in pinned && (d !in waiters || waiters[d] == []) { h := PopHandle(d); }
    }

    /** `ensure_fabric_sub` up to the start of the fabric subscription. */
    method Pin(d: DeviceId) returns (start: bool)
      modifies this
      ensures State() == WithPin(old(State()), d)
      ensures start <==> d !in old(deviceSubs)
    {
      pinned := pinned + {d};
      start := d !in deviceSubs;
    }

    /** The ring scan of `wait_for_event`, newest event first. */
    method ScanRecent(d: DeviceId, w: Wanted) returns (found: Option<Event>)
      ensures found == Newest(Recent(State(), d), w)
    {
      var ring := if d in recent then recent[d] else [];
      var i := |ring|;
      assert ring[..i] == ring;
      while i > 0
        invariant i <= |ring| && NewestIndex(ring[..i], w) == NewestIndex(ring, w)
      {
        i := i - 1;
        assert ring[..i + 1][..i] == ring[..i];
        if Matches(ring[i], w) { return Some(ring[i]); }
      }
      return None;
    }

    method AddWaiter(d: DeviceId, q: QueueId)
      modifies this
      ensures State() == WithWaiter(old(State()), d, q)
    {
      if d !in waiters { waiters := waiters[d := []]; }
      waiters := waiters[d := waiters[d] + [q]];
    }

    /** The `finally` block of `wait_for_event`. */
    method RemoveWaiter(d: DeviceId, q: QueueId) returns (h: Option<Handle>)
      modifies this
      ensures Released(State(), h) == WithoutWaiter(old(State()), d, q)
    {
      var queues := if d in waiters then waiters[d] else [];
      queues := Remove(queues, q);
      h := None;
      if queues != [] {
        waiters := waiters[d := queues];
      } else {
        waiters := waiters - {d};
        if d !in subscribers && d !in pinned { h := PopHandle(d); }
      }
    }

    /** `close`; the handles returned are unsubscribed after the lock is released. */
    method Close() returns (handles: set<Handle>)
      modifies this
      ensures State() == Closed(old(State())) && handles == old(deviceSubs).Values
    {
      handles := deviceSubs.Values;
      deviceSubs, subscribers, pinned, waiters := map[], map[], {}, map[];
    }

    /** `_handle_event` before it takes the lock. */
    method Announce(e: Event)
      modifies this
      ensures State() == WithLatest(old(State()), e)
    {
      latest := latest[e.device := e];
    }

    /** The locked region of `_handle_event`: record the event, and read off who is to hear of it. */
    method Record(e: Event) returns (queues: seq<QueueId>, clients: set<Client>)
      modifies this
      ensures State() == WithEvent(old(State()), e)
      ensures queues == Waiters(old(State()), e.device)
      ensures clients == if e.device in old(subscribers) then old(subscribers)[e.device] else {}
    {
      var ring := if e.device in recent then recent[e.device] else [];
      ring := ring + [e];
      if |ring| > RECENT_EVENTS_LIMIT { ring := ring[|ring| - RECENT_EVENTS_LIMIT..]; }
      recent := recent[e.device := ring];
      clients := if e.device in subscribers then subscribers[e.device] else {};
      queues := if e.device in waiters then waiters[e.device] else [];
    }
  }
}
