/** The registry client: collecting a fleet page by page from a server that may misbehave, and a cache of the whole
    fleet that filtered calls may be answered from. RegistryRuns.dfy has its calls interleave. */
module Registry {
  import opened Text
  import opened Paging

  type Name = string

  /** A device as stored; each field may be given in two places, the first of which wins unless it is empty. */
  datatype Device = Device(
    id: Name, identityType: string, plainType: string, statusLocation: string, plainLocation: string,
    functions: seq<string>)

  /** The filters of a call; `where` is evaluated by the registry only. */
  datatype Query = Query(
    deviceType: Option<string>, location: Option<string>, capabilities: Option<seq<string>>, where_: Option<string>)

  datatype Reply =
    | Listing(devices: seq<Device>, next: Option<int>, whereApplied: bool)
    | Fails

  datatype Outcome =
    | Done(devices: seq<Device>)
    | RequestFailed
    | WhereUnsupported
    | Stuck(next: int, offset: int, count: nat)
    | Paging                                    // waiting for the next reply

  // ----- collecting pages -----

  /** What one more reply does to a collection at `offset`. */
  function Receive(where_: bool, got: seq<Device>, offset: int, reply: Reply): (seq<Device>, int, Outcome) {
    match reply
    case Fails => (got, offset, RequestFailed)
    case Listing(devices, next, applied) =>
      if where_ && !applied then (got, offset, WhereUnsupported)
      else if next.None? then (got + devices, offset, Done(got + devices))
      else if next.value <= offset then (got + devices, offset, Stuck(next.value, offset, |got + devices|))
      else (got + devices, next.value, Paging)
  }

  /** The answers of a server to one request after the other; what is not read yet does not matter. */
  function Collect(where_: bool, got: seq<Device>, offset: int, replies: seq<Reply>): Outcome
    decreases |replies|
  {
    if replies == [] then Paging
    else
      var (got', offset', o) := Receive(where_, got, offset, replies[0]);
      if o.Paging? then Collect(where_, got', offset', replies[1..]) else o
  }

  function AllDevices(replies: seq<Reply>): seq<Device> {
    if replies == [] then []
    else (if replies[0].Listing? then replies[0].devices else []) + AllDevices(replies[1..])
  }

  /** A complete listing: every page but the last has a cursor beyond the one before, and the last has none. */
  predicate Complete(where_: bool, offset: int, pages: seq<Reply>)
    decreases |pages|
  {
    && pages != [] && pages[0].Listing? && (where_ ==> pages[0].whereApplied)
    && if |pages| == 1 then pages[0].next.None?
       else pages[0].next.Some? && pages[0].next.value > offset && Complete(where_, pages[0].next.value, pages[1..])
  }

  /** A listing is returned if and only if the replies begin with a complete one, and then it is all of it: a server
      whose cursor stands still or goes back never gets a part of the fleet passed off as the whole. */
  lemma {:induction false} DoneIffComplete(where_: bool, got: seq<Device>, offset: int, replies: seq<Reply>)
    ensures var o := Collect(where_, got, offset, replies);
            && (o.Done? <==> exists n :: 0 < n <= |replies| && Complete(where_, offset, replies[..n]))
            && forall n :: 0 < n <= |replies| && Complete(where_, offset, replies[..n]) ==>
                 o == Done(got + AllDevices(replies[..n]))
    decreases |replies|
  {
    if replies == [] {
    } else {
      var (got', offset', o) := Receive(where_, got, offset, replies[0]);
      var rest := replies[1..];
      if o.Paging? { DoneIffComplete(where_, got', offset', rest); }
      forall n | 0 < n <= |replies| && Complete(where_, offset, replies[..n])
        ensures Collect(where_, got, offset, replies) == Done(got + AllDevices(replies[..n])) {
        var pages := replies[..n];
        if n > 1 {
          assert pages[1..] == rest[..n - 1];
          assert got + AllDevices(pages) == got' + AllDevices(rest[..n - 1]);
        } else {
          assert AllDevices(pages[1..]) == [];
          assert AllDevices(pages) == pages[0].devices;
        }
      }
      if Collect(where_, got, offset, replies).Done? {
        if o.Done? {
          assert Complete(where_, offset, replies[..1]);
        } else {
          var m :| 0 < m <= |rest| && Complete(where_, offset', rest[..m]);
          assert replies[..m + 1][1..] == rest[..m];
          assert Complete(where_, offset, replies[..m + 1]);
        }
      }
    }
  }

  // ----- a server that slices a list -----

  function PageReply(fleet: seq<Device>, offset: nat, limit: nat): Reply {
    var page := Paginate(fleet, offset, limit);
    Listing(page.items, if page.next.Some? then Some(page.next.value as int) else None, true)
  }

  /** The replies of a server that pages through a list with a limit. */
  function Sliced(fleet: seq<Device>, offset: nat, limit: nat): seq<Reply>
    requires limit > 0
    decreases |fleet| - offset
  {
    var next := Paginate(fleet, offset, limit).next;
    [PageReply(fleet, offset, limit)] + (if next.Some? then Sliced(fleet, next.value, limit) else [])
  }

  lemma PageReceived(where_: bool, got: seq<Device>, fleet: seq<Device>, offset: nat, limit: nat)
    requires limit > 0
    ensures var page := Paginate(fleet, offset, limit);
            Receive(where_, got, offset, PageReply(fleet, offset, limit)) ==
            if page.next.Some? then (got + page.items, page.next.value, Paging)
            else (got + page.items, offset, Done(got + page.items))
  {
  }

  lemma PageThenRest(fleet: seq<Device>, offset: nat, limit: nat)
    requires limit > 0
    ensures var page := Paginate(fleet, offset, limit);
            var rs, ps := Sliced(fleet, offset, limit), Walk(fleet, offset, limit);
            && rs != [] && rs[0] == PageReply(fleet, offset, limit) && ps != [] && ps[0] == page.items
            && (page.next.Some? ==>
                  && offset < page.next.value < |fleet|
                  && rs[1..] == Sliced(fleet, page.next.value, limit) && ps[1..] == Walk(fleet, page.next.value, limit))
            && (page.next.None? ==> rs[1..] == [] && ps[1..] == [])
  {
    hide PageReply;
  }

  lemma {:induction false} SlicedCollects(where_: bool, got: seq<Device>, fleet: seq<Device>, offset: nat, limit: nat)
    requires limit > 0
    ensures Collect(where_, got, offset, Sliced(fleet, offset, limit)) == Done(got + Flat(Walk(fleet, offset, limit)))
    ensures |Sliced(fleet, offset, limit)| == |Walk(fleet, offset, limit)|
    decreases |fleet| - offset
  {
    hide Paginate, Walk, Sliced, PageReply, Receive;
    var page := Paginate(fleet, offset, limit);
    PageThenRest(fleet, offset, limit);
    PageReceived(where_, got, fleet, offset, limit);
    if page.next.Some? {
      SlicedCollects(where_, got + page.items, fleet, page.next.value, limit);
      assert got + page.items + Flat(Walk(fleet, page.next.value, limit)) == got + Flat(Walk(fleet, offset, limit));
    } else {
      assert Flat(Walk(fleet, offset, limit)) == page.items + [];
    }
  }

  /** The offsets that the client asks for, the last of them still unanswered when the replies run out. */
  function Asked(where_: bool, offset: int, replies: seq<Reply>): (asked: seq<int>)
    ensures asked != []
    decreases |replies|
  {
    if replies == [] then [offset]
    else
      var (_, next, o) := Receive(where_, [], offset, replies[0]);
      [offset] + (if o.Paging? then Asked(where_, next, replies[1..]) else [])
  }

  lemma {:induction false} SlicedAsks(where_: bool, fleet: seq<Device>, offset: nat, limit: nat)
    requires limit > 0
    ensures var asked, replies := Asked(where_, offset, Sliced(fleet, offset, limit)), Sliced(fleet, offset, limit);
            && |asked| == |replies|
            && forall i :: 0 <= i < |asked| ==> asked[i] >= 0 && replies[i] == PageReply(fleet, asked[i], limit)
    decreases |fleet| - offset
  {
    hide Paginate, Walk, Sliced, PageReply, Receive;
    var page := Paginate(fleet, offset, limit);
    PageThenRest(fleet, offset, limit);
    PageReceived(where_, [], fleet, offset, limit);
    if page.next.Some? { SlicedAsks(where_, fleet, page.next.value, limit); }
  }

  /** Against a server that slices a list, the client gets the list, and asks for one page after the other: as many
      offsets as it takes to hold the list, each answered with the page there. */
  lemma SlicesGiveFleet(where_: bool, fleet: seq<Device>, limit: nat)
    requires limit > 0
    ensures Collect(where_, [], 0, Sliced(fleet, 0, limit)) == Done(fleet)
    ensures var asked, replies := Asked(where_, 0, Sliced(fleet, 0, limit)), Sliced(fleet, 0, limit);
            && |asked| == |replies|
            && (forall i :: 0 <= i < |asked| ==> asked[i] >= 0 && replies[i] == PageReply(fleet, asked[i], limit))
            && |fleet| <= |asked| * limit && (|asked| > 1 ==> (|asked| - 1) * limit < |fleet|)
  {
    hide Sliced, Collect, Walk, Flat, Asked, PageReply;
    SlicedCollects(where_, [], fleet, 0, limit);
    SlicedAsks(where_, fleet, 0, limit);
    PagesGiveWhole(fleet, limit);
    assert [] + fleet == fleet;
  }

  // ----- filters -----

  function LowerChar(c: char): char {
    if 'A' <= c <= 'Z' then c - 'A' + 'a' else c
  }

  function Lower(s: string): string {
    seq(|s|, i requires 0 <= i < |s| => LowerChar(s[i]))
  }

  predicate Contains(s: string, part: string) {
    exists k :: 0 <= k <= |s| && part <= s[k..]
  }

  function FirstOf(a: string, b: string): string {
    if a != "" then a else b
  }

  predicate HasType(d: Device, part: string) {
    Contains(Lower(FirstOf(d.identityType, d.plainType)), Lower(part))
  }

  predicate HasLocation(d: Device, part: string) {
    Contains(Lower(FirstOf(d.statusLocation, d.plainLocation)), Lower(part))
  }

  predicate HasCapabilities(d: Device, wanted: seq<string>) {
    forall c :: c in wanted ==> exists f :: f in d.functions && f != "" && Lower(f) == Lower(c)
  }

  predicate Keeps(d: Device, q: Query) {
    && (q.deviceType.Some? && q.deviceType.value != "" ==> HasType(d, q.deviceType.value))
    && (q.location.Some? && q.location.value != "" ==> HasLocation(d, q.location.value))
    && (q.capabilities.Some? && q.capabilities.value != [] ==> HasCapabilities(d, q.capabilities.value))
  }

  /** The devices that pass all filters of a call, in order. */
  function Kept(ds: seq<Device>, q: Query): seq<Device> {
    if ds == [] then []
    else Kept(ds[..|ds| - 1], q) + (if Keeps(ds[|ds| - 1], q) then [ds[|ds| - 1]] else [])
  }

  function TypeOnly(q: Query): Query {
    Query(q.deviceType, None, None, None)
  }

  function LocationOnly(q: Query): Query {
    Query(None, q.location, None, None)
  }

  function CapabilitiesOnly(q: Query): Query {
    Query(None, None, q.capabilities, None)
  }

  lemma {:induction false} PassesCompose(ds: seq<Device>, q: Query)
    ensures Kept(Kept(Kept(ds, TypeOnly(q)), LocationOnly(q)), CapabilitiesOnly(q)) == Kept(ds, q)
  {
    hide HasType, HasLocation, HasCapabilities;
    if ds == [] {
    } else {
      var n := |ds| - 1;
      PassesCompose(ds[..n], q);
      var typed := Kept(ds[..n], TypeOnly(q));
      KeptNext(typed, ds[n], LocationOnly(q));
      KeptNext(Kept(typed, LocationOnly(q)), ds[n], CapabilitiesOnly(q));
    }
  }

  lemma KeptNext(ds: seq<Device>, d: Device, q: Query)
    ensures Kept(ds + [d], q) == Kept(ds, q) + (if Keeps(d, q) then [d] else [])
    ensures Kept(ds + [], q) == Kept(ds, q)
  {
    hide Keeps;
    assert (ds + [d])[..|ds|] == ds && ds + [] == ds;
  }

  lemma {:induction false} KeptAll(ds: seq<Device>, q: Query)
    requires forall k :: 0 <= k < |ds| ==> Keeps(ds[k], q)
    ensures Kept(ds, q) == ds
  {
    hide Keeps;
    if ds == [] {
    } else {
      var n := |ds| - 1;
      KeptAll(ds[..n], q);
      assert ds == ds[..n] + [ds[n]];
    }
  }

  // ----- what the filters mean, letter by letter -----

  predicate SameLetter(a: char, b: char) {
    || a == b
    || ('a' <= a <= 'z' && a as int == b as int + 32)
    || ('a' <= b <= 'z' && b as int == a as int + 32)
  }

  /** The part stands in the text at position `k`, letter case aside. */
  predicate StandsAt(text: string, k: int, part: string) {
    0 <= k <= |text| - |part| && forall i :: 0 <= i < |part| ==> SameLetter(text[k + i], part[i])
  }

  ghost predicate Mentions(text: string, part: string) {
    exists k :: StandsAt(text, k, part)
  }

  predicate SameWord(a: string, b: string) {
    |a| == |b| && forall i :: 0 <= i < |a| ==> SameLetter(a[i], b[i])
  }

  lemma LowerLetters(a: char, b: char)
    ensures LowerChar(a) == LowerChar(b) <==> SameLetter(a, b)
  {
  }

  lemma LowerWords(a: string, b: string)
    ensures Lower(a) == Lower(b) <==> SameWord(a, b)
  {
    hide LowerChar, SameLetter;
    forall x, y ensures LowerChar(x) == LowerChar(y) <==> SameLetter(x, y) { LowerLetters(x, y); }
    if Lower(a) == Lower(b) {
      assert |Lower(a)| == |a| && |Lower(b)| == |b|;
      forall i | 0 <= i < |a| ensures SameLetter(a[i], b[i]) { assert Lower(a)[i] == Lower(b)[i]; }
    }
  }

  lemma ContainsMeans(text: string, part: string)
    ensures Contains(Lower(text), Lower(part)) <==> Mentions(text, part)
  {
    hide LowerChar, SameLetter;
    forall x, y ensures LowerChar(x) == LowerChar(y) <==> SameLetter(x, y) { LowerLetters(x, y); }
    var t, p := Lower(text), Lower(part);
    if Contains(t, p) {
      var k :| 0 <= k <= |t| && p <= t[k..];
      forall i | 0 <= i < |part| ensures SameLetter(text[k + i], part[i]) { assert p[i] == t[k..][i] == t[k + i]; }
      assert StandsAt(text, k, part);
    }
    if Mentions(text, part) {
      var k :| StandsAt(text, k, part);
      assert p == t[k..][..|p|];
      assert p <= t[k..];
    }
  }

  /** Why a device is dropped: the type or location asked for is not mentioned in the first of its two that is not
      empty, or a capability asked for is the name of none of its functions. */
  ghost predicate Dropped(d: Device, q: Query) {
    || (q.deviceType.Some? && q.deviceType.value != "" &&
        !Mentions(if d.identityType == "" then d.plainType else d.identityType, q.deviceType.value))
    || (q.location.Some? && q.location.value != "" &&
        !Mentions(if d.statusLocation == "" then d.plainLocation else d.statusLocation, q.location.value))
    || (q.capabilities.Some? &&
        exists c :: c in q.capabilities.value && forall f :: f in d.functions && f != "" ==> !SameWord(f, c))
  }

  lemma KeepsMeans(d: Device, q: Query)
    ensures Keeps(d, q) <==> !Dropped(d, q)
  {
    hide Contains, Lower, Mentions, SameWord;
    forall text, part ensures Contains(Lower(text), Lower(part)) <==> Mentions(text, part) {
      ContainsMeans(text, part);
    }
    forall a, b ensures Lower(a) == Lower(b) <==> SameWord(a, b) { LowerWords(a, b); }
  }

  /** A call keeps exactly the devices that nothing drops, in their order. */
  lemma {:induction false} KeptAreNotDropped(ds: seq<Device>, more: seq<Device>, q: Query)
    ensures Kept(ds + more, q) == Kept(ds, q) + Kept(more, q)
    ensures |ds| == 1 ==> Kept(ds, q) == if Dropped(ds[0], q) then [] else ds
    decreases |more|
  {
    hide Keeps, Dropped;
    if |ds| == 1 {
      KeepsMeans(ds[0], q);
      assert ds[..0] == [] && ds == [ds[0]];
    }
    if more == [] {
      assert ds + more == ds;
    } else {
      var n := |more| - 1;
      KeptAreNotDropped(ds, more[..n], q);
      assert (ds + more)[..|ds| + n] == ds + more[..n];
    }
  }

  /** `_filter_devices`: one pass for each filter that is given, the same as one pass for all of them. */
  method FilterDevices(devices: seq<Device>, q: Query) returns (r: seq<Device>)
    ensures r == Kept(devices, q)
  {
    r := devices;
    if q.deviceType.Some? && q.deviceType.value != "" {
      r := Pass(r, TypeOnly(q));
    } else {
      KeptAll(r, TypeOnly(q));
    }
    if q.location.Some? && q.location.value != "" {
      r := Pass(r, LocationOnly(q));
    } else {
      KeptAll(r, LocationOnly(q));
    }
    if q.capabilities.Some? && q.capabilities.value != [] {
      r := Pass(r, CapabilitiesOnly(q));
    } else {
      KeptAll(r, CapabilitiesOnly(q));
    }
    PassesCompose(devices, q);
  }

  method Pass(devices: seq<Device>, q: Query) returns (r: seq<Device>)
    ensures r == Kept(devices, q)
  {
    r := [];
    for i := 0 to |devices|
      invariant r == Kept(devices[..i], q)
    {
      assert devices[..i + 1][..i] == devices[..i];
      if Keeps(devices[i], q) { r := r + [devices[i]]; }
    }
    assert devices[..|devices|] == devices;
  }

  // ----- the client -----

  /** The cache and when it was filled. */
  datatype Memory = Memory(cache: Option<seq<Device>>, at: real)

  const NOTHING := Memory(None, 0.0)

  predicate UsesCache(ttl: real, m: Memory, q: Query, now: real) {
    q.where_.None? && ttl > 0.0 && m.cache.Some? && now - m.at < ttl
  }

  predicate Unfiltered(q: Query) {
    q.deviceType.None? && q.location.None? && (q.capabilities.None? || q.capabilities.value == []) && q.where_.None?
  }

  /** What a complete listing makes of the cache that it finds when its last page is in. */
  function Stored(ttl: real, m: Memory, q: Query, devices: seq<Device>, later: real): Memory {
    if ttl > 0.0 && Unfiltered(q) then Memory(Some(devices), later) else m
  }

  /** An offset is the cursor of the reply before it, and beyond the offset asked for there. */
  predicate Follows(asked: seq<int>, replies: seq<Reply>, i: nat) {
    && 0 < i < |asked| && i <= |replies|
    && asked[i - 1] < asked[i] && replies[i - 1].Listing? && replies[i - 1].next == Some(asked[i])
  }

  class RegistryClient {
    const ttl: real
    var cache: Option<seq<Device>>
    var cacheTime: real

    ghost function State(): Memory
      reads this
    {
      Memory(cache, cacheTime)
    }

    constructor (ttl: real)
      ensures this.ttl == ttl && State() == NOTHING
    {
      this.ttl := ttl;
      cache, cacheTime := None, 0.0;
    }

    method InvalidateCache()
      modifies this
      ensures State() == NOTHING
    {
      cache, cacheTime := None, 0.0;
    }

    /** `list_devices` up to the first request: an answer from the cache, if it may be used. */
    method LookUp(q: Query, now: real) returns (hit: Option<seq<Device>>)
      ensures hit == if UsesCache(ttl, State(), q, now) then Some(Kept(cache.value, q)) else None
    {
      if q.where_.None? && ttl > 0.0 && cache.Some? {
        var age := now - cacheTime;
        if age < ttl {
          var found := FilterDevices(cache.value, q);
          return Some(found);
        }
      }
      return None;
    }

    /** `list_devices` after the last page. */
    method StoreListing(q: Query, devices: seq<Device>, later: real)
      modifies this
      ensures State() == Stored(ttl, old(State()), q, devices, later)
    {
      if ttl > 0.0 && Unfiltered(q) { cache, cacheTime := Some(devices), later; }
    }

    /** `list_devices`, which awaits every page. By the time the last reply is in, other calls and invalidations have
        made `meanwhile` of the cache. */
    method ListDevices(q: Query, now: real, replies: seq<Reply>, meanwhile: Memory, later: real)
      returns (o: Outcome, asked: seq<int>)
      modifies this
      ensures if UsesCache(ttl, old(State()), q, now) then
          o == Done(Kept(old(cache).value, q)) && asked == [] && State() == old(State())
        else
          && o == Collect(q.where_.Some?, [], 0, replies) && asked == Asked(q.where_.Some?, 0, replies)
          && State() == if o.Done? then Stored(ttl, meanwhile, q, o.devices, later) else meanwhile
    {
      var hit := LookUp(q, now);
      if hit.Some? { return Done(hit.value), []; }
      o, asked := CollectPages(q.where_.Some?, replies);
      cache, cacheTime := meanwhile.cache, meanwhile.at;
      if o.Done? { StoreListing(q, o.devices, later); }
    }
  }

  /** The paging loop of `list_devices`, whose variables are its own. `asked` are the offsets requested: from zero, each
      beyond the one before. */
  method CollectPages(where_: bool, replies: seq<Reply>) returns (o: Outcome, asked: seq<int>)
    ensures o == Collect(where_, [], 0, replies) && asked == Asked(where_, 0, replies)
    ensures 0 < |asked| <= |replies| + 1 && asked[0] == 0
    ensures forall i :: 0 < i < |asked| ==> Follows(asked, replies, i)
  {
    hide AllDevices, Complete, Collect, Asked, Follows;
    var devices: seq<Device> := [];
    var offset := 0;
    asked := [0];
    ghost var before: seq<int> := [];
    var i := 0;
    assert replies[0..] == replies;
    while true
      invariant 0 <= i <= |replies| && |before| == i && asked == before + [offset] && asked[0] == 0
      invariant Collect(where_, [], 0, replies) == Collect(where_, devices, offset, replies[i..])
      invariant Asked(where_, 0, replies) == before + Asked(where_, offset, replies[i..])
      invariant forall k :: 0 < k <= i ==> Follows(asked, replies, k)
      decreases |replies| - i
    {
      if i == |replies| {
        OutOfReplies(where_, devices, offset);
        assert replies[i..] == [];
        return Paging, asked;
      }
      NextReply(where_, devices, offset, replies, i);
      var reply := replies[i];
      if reply.Fails? { return RequestFailed, asked; }
      if where_ && !reply.whereApplied { return WhereUnsupported, asked; }
      devices := devices + reply.devices;
      if reply.next.None? { break; }
      if reply.next.value <= offset { return Stuck(reply.next.value, offset, |devices|), asked; }
      FollowsNext(before, offset, reply.next.value, replies);
      before := asked;
      offset := reply.next.value;
      asked := asked + [offset];
      i := i + 1;
    }
    return Done(devices), asked;
  }

  lemma OutOfReplies(where_: bool, got: seq<Device>, offset: int)
    ensures Collect(where_, got, offset, []) == Paging && Asked(where_, offset, []) == [offset]
  {
  }

  lemma NextReply(where_: bool, got: seq<Device>, offset: int, replies: seq<Reply>, i: nat)
    requires i < |replies|
    ensures var (got', offset', o) := Receive(where_, got, offset, replies[i]);
            && Collect(where_, got, offset, replies[i..]) ==
               (if o.Paging? then Collect(where_, got', offset', replies[i + 1..]) else o)
            && Asked(where_, offset, replies[i..]) ==
               [offset] + (if o.Paging? then Asked(where_, offset', replies[i + 1..]) else [])
  {
    assert replies[i..][1..] == replies[i + 1..];
  }

  lemma FollowsNext(before: seq<int>, offset: int, next: int, replies: seq<Reply>)
    requires |before| < |replies| && replies[|before|].Listing? && replies[|before|].next == Some(next) && next > offset
    requires forall k :: 0 < k <= |before| ==> Follows(before + [offset], replies, k)
    ensures forall k :: 0 < k <= |before| + 1 ==> Follows(before + [offset] + [next], replies, k)
  {
    forall k | 0 < k <= |before| + 1 ensures Follows(before + [offset] + [next], replies, k) {
      if k <= |before| { assert Follows(before + [offset], replies, k); }
    }
  }
}
