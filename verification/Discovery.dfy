/** Selector-driven discovery: which devices, functions and events a selector picks from a fleet, page by page, and
    the walk over the pages that collects the functions to invoke. */
module Discovery {
  import opened Text
  import opened Selector
  import opened Matching
  import opened Paging
  import Histogram
  import SelectorScanner

  const DEFAULT_LIMIT: nat := 200
  const FUNCTION_THRESHOLD: nat := 20
  const SMALL_FLEET_THRESHOLD: nat := 5

  /** A function or an event: a bare name, or a record with labels and a schema. */
  datatype Entity = Bare(name: string) | Full(name: string, labels: Option<Labels>, schema: string)

  datatype Device = Device(id: string, labels: Option<Labels>, functions: seq<Entity>, events: seq<Entity>)

  /** A device, or one of its entities, with their positions in the fleet. */
  datatype Match = Match(i: nat, j: nat, device: Device, entity: Entity)

  datatype Row =
    | DeviceRow(device: string, labels: Option<Labels>, expanded: bool)
    | EntityRow(device: string, name: string, labels: Option<Labels>, schema: Option<string>)

  datatype Envelope =
    | Failed(code: string, scope: Option<Scope>)
    | Envelope(scope_: Scope, matched: nat, offset: nat, next: Option<nat>, rows: seq<Row>,
               histogram: map<string, Histogram.Shown>)

  // ----- what a selector picks -----

  predicate ForFunctions(scope: Scope) {
    scope.DeviceFunction? || scope.FunctionOnly?
  }

  function Entities(d: Device, scope: Scope): seq<Entity> {
    if ForFunctions(scope) then d.functions else d.events
  }

  function EntityFilter(sel: Selector): Option<Filter> {
    if ForFunctions(sel.scope) then sel.function_ else sel.event
  }

  /** A bare name is treated as a record without labels. */
  function Lifted(e: Entity): Entity {
    if e.Bare? then Full(e.name, None, "") else e
  }

  ghost predicate Picks(f: Option<Filter>, name: string, labels: Option<Labels>) {
    f.None? || Accepts(f.value, name, labels)
  }

  ghost predicate PicksDevice(sel: Selector, d: Device) {
    Picks(sel.device, d.id, d.labels)
  }

  ghost predicate PicksEntity(sel: Selector, e: Entity) {
    Picks(EntityFilter(sel), Lifted(e).name, Lifted(e).labels)
  }

  ghost predicate PickedFrom(m: Match, sel: Selector, i: nat, d: Device, es: seq<Entity>) {
    m.i == i && m.device == d && m.j < |es| && m.entity == Lifted(es[m.j]) && PicksEntity(sel, m.entity)
  }

  ghost predicate Picked(m: Match, sel: Selector, fleet: seq<Device>) {
    && m.i < |fleet| && PicksDevice(sel, fleet[m.i])
    && PickedFrom(m, sel, m.i, fleet[m.i], Entities(fleet[m.i], sel.scope))
  }

  /** Exactly the entities that the selector picks on the devices that it picks, each once, in the fleet's order. */
  ghost predicate IsSelection(ms: seq<Match>, sel: Selector, fleet: seq<Device>) {
    (forall m :: m in ms <==> Picked(m, sel, fleet)) && InOrder(ms)
  }

  predicate InOrder(ms: seq<Match>) {
    forall a, b :: 0 <= a < b < |ms| ==> ms[a].i < ms[b].i || (ms[a].i == ms[b].i && ms[a].j < ms[b].j)
  }

  // ----- the selection -----

  ghost function EntityMatches(sel: Selector, i: nat, d: Device, es: seq<Entity>): seq<Match> {
    if es == [] then []
    else
      var n := |es| - 1;
      EntityMatches(sel, i, d, es[..n]) + (if PicksEntity(sel, es[n]) then [Match(i, n, d, Lifted(es[n]))] else [])
  }

  ghost function Matches(sel: Selector, fleet: seq<Device>): seq<Match> {
    if fleet == [] then []
    else
      var n := |fleet| - 1;
      Matches(sel, fleet[..n]) +
      (if PicksDevice(sel, fleet[n]) then EntityMatches(sel, n, fleet[n], Entities(fleet[n], sel.scope)) else [])
  }

  ghost function DeviceMatches(sel: Selector, fleet: seq<Device>): seq<Device> {
    if fleet == [] then []
    else
      var n := |fleet| - 1;
      DeviceMatches(sel, fleet[..n]) + (if PicksDevice(sel, fleet[n]) then [fleet[n]] else [])
  }

  lemma OneMorePicked(m: Match, sel: Selector, i: nat, d: Device, es: seq<Entity>)
    requires es != []
    ensures var n := |es| - 1;
            PickedFrom(m, sel, i, d, es) <==>
            PickedFrom(m, sel, i, d, es[..n]) || (PicksEntity(sel, es[n]) && m == Match(i, n, d, Lifted(es[n])))
  {
    hide Picks;
  }

  lemma InOrderLast(ms: seq<Match>, m: Match)
    requires InOrder(ms) && forall x :: x in ms ==> x.i == m.i && x.j < m.j
    ensures InOrder(ms + [m])
  {
  }

  lemma {:induction false} EntityMatchesExact(sel: Selector, i: nat, d: Device, es: seq<Entity>)
    ensures forall m :: m in EntityMatches(sel, i, d, es) <==> PickedFrom(m, sel, i, d, es)
    ensures InOrder(EntityMatches(sel, i, d, es))
  {
    hide PickedFrom, PicksEntity, InOrder, Lifted;
    if es == [] {
      NoneInOrder();
      forall m { FromHere(m, sel, i, d, []); }
    } else {
      var n := |es| - 1;
      EntityMatchesExact(sel, i, d, es[..n]);
      var before := EntityMatches(sel, i, d, es[..n]);
      assert before + [] == before;
      forall m { OneMorePicked(m, sel, i, d, es); }
      forall m { FromHere(m, sel, i, d, es[..n]); }
      if PicksEntity(sel, es[n]) { InOrderLast(before, Match(i, n, d, Lifted(es[n]))); }
    }
  }

  lemma InOrderJoin(a: seq<Match>, b: seq<Match>, n: nat)
    requires InOrder(a) && InOrder(b)
    requires (forall m :: m in a ==> m.i < n) && (forall m :: m in b ==> m.i == n)
    ensures InOrder(a + b)
  {
  }

  /** The loops pick exactly the selection. */
  lemma {:induction false} MatchesExact(sel: Selector, fleet: seq<Device>)
    ensures IsSelection(Matches(sel, fleet), sel, fleet)
  {
    hide PicksDevice, PickedFrom, Entities, InOrder;
    if fleet == [] {
      assert InOrder(Matches(sel, [])) by { NoneInOrder(); }
    } else {
      var n := |fleet| - 1;
      MatchesExact(sel, fleet[..n]);
      var es := Entities(fleet[n], sel.scope);
      EntityMatchesExact(sel, n, fleet[n], es);
      forall m ensures Picked(m, sel, fleet) <==>
          Picked(m, sel, fleet[..n]) || (PicksDevice(sel, fleet[n]) && PickedFrom(m, sel, n, fleet[n], es)) {
        FromHere(m, sel, n, fleet[n], es);
      }
      forall m | m in EntityMatches(sel, n, fleet[n], es) ensures m.i == n { FromHere(m, sel, n, fleet[n], es); }
      InOrderJoin(Matches(sel, fleet[..n]), EntityMatches(sel, n, fleet[n], es), n);
      assert Matches(sel, fleet[..n]) + [] == Matches(sel, fleet[..n]);
    }
  }

  lemma NoneInOrder()
    ensures InOrder([])
  {
  }

  lemma FromHere(m: Match, sel: Selector, i: nat, d: Device, es: seq<Entity>)
    ensures PickedFrom(m, sel, i, d, es) ==> m.i == i && m.j < |es|
  {
  }

  /** Exactly the devices that the selector picks, each once, in the fleet's order; `at` are their positions. */
  ghost predicate IsDeviceSelection(ds: seq<Device>, at: seq<nat>, sel: Selector, fleet: seq<Device>) {
    && |at| == |ds|
    && (forall k :: 0 <= k < |at| ==> at[k] < |fleet| && ds[k] == fleet[at[k]] && PicksDevice(sel, fleet[at[k]]))
    && (forall i :: 0 <= i < |fleet| && PicksDevice(sel, fleet[i]) ==> i in at)
    && forall j, k :: 0 <= j < k < |at| ==> at[j] < at[k]
  }

  lemma SkipDevice(ds: seq<Device>, at: seq<nat>, sel: Selector, fleet: seq<Device>, d: Device)
    requires IsDeviceSelection(ds, at, sel, fleet) && !PicksDevice(sel, d)
    ensures IsDeviceSelection(ds, at, sel, fleet + [d])
  {
    hide PicksDevice;
    var more := fleet + [d];
    assert forall i :: 0 <= i < |fleet| ==> more[i] == fleet[i];
  }

  lemma AddDevice(ds: seq<Device>, at: seq<nat>, sel: Selector, fleet: seq<Device>, d: Device)
    requires IsDeviceSelection(ds, at, sel, fleet) && PicksDevice(sel, d)
    ensures IsDeviceSelection(ds + [d], at + [|fleet|], sel, fleet + [d])
  {
    hide PicksDevice;
    var n, more, ds', at' := |fleet|, fleet + [d], ds + [d], at + [|fleet|];
    assert more[n] == d && at'[|at|] == n && ds'[|ds|] == d;
    forall k | 0 <= k < |at'|
      ensures at'[k] < |more| && ds'[k] == more[at'[k]] && PicksDevice(sel, more[at'[k]])
    {
      if k < |at| { assert at'[k] == at[k] && ds'[k] == ds[k] && more[at[k]] == fleet[at[k]]; }
    }
    forall i | 0 <= i < |more| && PicksDevice(sel, more[i]) ensures i in at' {
      if i < n { assert more[i] == fleet[i] && i in at; }
    }
    forall j, k | 0 <= j < k < |at'| ensures at'[j] < at'[k] {
      if k < |at| { assert at'[j] == at[j] && at'[k] == at[k]; } else { assert at'[j] == at[j] < n; }
    }
  }

  lemma {:induction false} DeviceMatchesExact(sel: Selector, fleet: seq<Device>) returns (at: seq<nat>)
    ensures IsDeviceSelection(DeviceMatches(sel, fleet), at, sel, fleet)
  {
    hide PicksDevice;
    if fleet == [] {
      at := [];
    } else {
      hide IsDeviceSelection;
      var n := |fleet| - 1;
      at := DeviceMatchesExact(sel, fleet[..n]);
      var ds := DeviceMatches(sel, fleet[..n]);
      assert fleet == fleet[..n] + [fleet[n]] && ds + [] == ds;
      if PicksDevice(sel, fleet[n]) {
        AddDevice(ds, at, sel, fleet[..n], fleet[n]);
        at := at + [n];
      } else {
        SkipDevice(ds, at, sel, fleet[..n], fleet[n]);
      }
    }
  }

  /** There is only one selection. */
  lemma {:induction false} SelectionIsUnique(a: seq<Match>, b: seq<Match>)
    requires InOrder(a) && InOrder(b) && forall m :: m in a <==> m in b
    ensures a == b
    decreases |a|
  {
    assert b != [] ==> b[0] in a;
    if a == [] {
    } else {
      assert a[0] in b && b[0] in a;
      assert a[0] == b[0];
      forall m ensures m in a[1..] <==> m in b[1..] {
        assert m in a <==> m == a[0] || m in a[1..];
        assert m in b <==> m == b[0] || m in b[1..];
      }
      SelectionIsUnique(a[1..], b[1..]);
    }
  }

  // ----- rows -----

  function EntityRowOf(m: Match, expand: bool): Row {
    EntityRow(m.device.id, m.entity.name, Lifted(m.entity).labels,
              if expand then Some(Lifted(m.entity).schema) else None)
  }

  function EntityRows(ms: seq<Match>, expand: bool): (rows: seq<Row>)
    ensures |rows| == |ms|
  {
    seq(|ms|, k requires 0 <= k < |ms| => EntityRowOf(ms[k], expand))
  }

  function DeviceRows(ds: seq<Device>, expand: bool): (rows: seq<Row>)
    ensures |rows| == |ds|
  {
    seq(|ds|, k requires 0 <= k < |ds| => DeviceRow(ds[k].id, ds[k].labels, expand))
  }

  /** The rows of all pages; small results show schemas. */
  ghost function AllRows(sel: Selector, fleet: seq<Device>): seq<Row> {
    if sel.scope.DeviceOnly? then
      var ds := DeviceMatches(sel, fleet);
      DeviceRows(ds, |ds| <= SMALL_FLEET_THRESHOLD)
    else
      var ms := Matches(sel, fleet);
      EntityRows(ms, |ms| <= FUNCTION_THRESHOLD)
  }

  lemma DeviceRowsPaged(ds: seq<Device>, from: nat, size: nat, expand: bool)
    ensures var page, all := Paginate(ds, from, size), Paginate(DeviceRows(ds, expand), from, size);
            DeviceRows(page.items, expand) == all.items && page.next == all.next
  {
  }

  lemma EntityRowsPaged(ms: seq<Match>, from: nat, size: nat, expand: bool)
    ensures var page, all := Paginate(ms, from, size), Paginate(EntityRows(ms, expand), from, size);
            EntityRows(page.items, expand) == all.items && page.next == all.next
  {
  }

  // ----- the rows against the fleet -----

  /** The functions or the events of a device, as the scope has it. */
  function Listed(d: Device, scope: Scope): seq<Entity> {
    match scope
    case DeviceFunction => d.functions
    case FunctionOnly => d.functions
    case _ => d.events
  }

  function Tagged(e: Entity): Option<Labels> {
    match e
    case Bare(_) => None
    case Full(_, labels, _) => labels
  }

  /** The device's filter accepts device `i`, and the filter of the scope its function or event `j`. */
  ghost predicate Wanted(sel: Selector, fleet: seq<Device>, i: nat, j: nat) {
    && i < |fleet| && j < |Listed(fleet[i], sel.scope)|
    && var d, e := fleet[i], Listed(fleet[i], sel.scope)[j];
       var f := if sel.scope.DeviceFunction? || sel.scope.FunctionOnly? then sel.function_ else sel.event;
       && (sel.device.Some? ==> Accepts(sel.device.value, d.id, d.labels))
       && (f.Some? ==> Accepts(f.value, e.name, Tagged(e)))
  }

  /** The row is addressed to the device and carries the name and labels of its function or event, and its schema when
      schemas are shown. */
  ghost predicate Tells(row: Row, d: Device, e: Entity, expand: bool) {
    && row.EntityRow? && row.device == d.id && row.name == e.name && row.labels == Tagged(e)
    && (row.schema.Some? <==> expand)
    && (row.schema.Some? && e.Full? ==> row.schema.value == e.schema)
  }

  /** The rows are those of the functions or events that the selector's filters accept on the devices that they accept:
      one row for each, which names that device and that function or event. */
  lemma RowsNameTheFleet(sel: Selector, fleet: seq<Device>, ms: seq<Match>, expand: bool)
    requires IsSelection(ms, sel, fleet)
    ensures forall i: nat, j: nat :: Wanted(sel, fleet, i, j) <==> exists k :: 0 <= k < |ms| && At(ms[k], i, j)
    ensures forall k :: 0 <= k < |ms| ==>
              && ms[k].i < |fleet| && ms[k].j < |Listed(fleet[ms[k].i], sel.scope)|
              && Tells(EntityRows(ms, expand)[k], fleet[ms[k].i], Listed(fleet[ms[k].i], sel.scope)[ms[k].j], expand)
  {
    hide Accepts, InOrder;
    forall i: nat, j: nat ensures Wanted(sel, fleet, i, j) <==> exists k :: 0 <= k < |ms| && At(ms[k], i, j) {
      if Wanted(sel, fleet, i, j) {
        var m := Match(i, j, fleet[i], Lifted(Listed(fleet[i], sel.scope)[j]));
        assert Picked(m, sel, fleet);
        var k :| 0 <= k < |ms| && ms[k] == m;
        assert At(ms[k], i, j);
      }
      if k :| 0 <= k < |ms| && At(ms[k], i, j) {
        assert ms[k] in ms;
        assert Picked(ms[k], sel, fleet);
      }
    }
    forall k | 0 <= k < |ms|
      ensures ms[k].i < |fleet| && ms[k].j < |Listed(fleet[ms[k].i], sel.scope)|
      ensures Tells(EntityRows(ms, expand)[k], fleet[ms[k].i], Listed(fleet[ms[k].i], sel.scope)[ms[k].j], expand)
    {
      assert Picked(ms[k], sel, fleet);
    }
  }

  predicate At(m: Match, i: nat, j: nat) {
    m.i == i && m.j == j
  }

  /** The rows of a device scope name the devices that the filter accepts, in the fleet's order. */
  lemma DeviceRowsNameTheFleet(sel: Selector, fleet: seq<Device>, expand: bool) returns (at: seq<nat>)
    ensures var rows := DeviceRows(DeviceMatches(sel, fleet), expand);
            && |at| == |rows|
            && (forall i, k :: 0 <= i < k < |at| ==> at[i] < at[k])
            && (forall i: nat ::
                  i in at <==> i < |fleet| && (sel.device.Some? ==>
                                                 Accepts(sel.device.value, fleet[i].id, fleet[i].labels)))
            && (forall k :: 0 <= k < |at| ==>
                  at[k] < |fleet| && rows[k] == DeviceRow(fleet[at[k]].id, fleet[at[k]].labels, expand))
  {
    hide Accepts, DeviceMatches;
    at := DeviceMatchesExact(sel, fleet);
  }

  // ----- the histogram of what is picked -----

  function LabelsOf(labels: Option<Labels>): Labels {
    if labels.Some? then labels.value else []
  }

  function DeviceLabels(ds: seq<Device>): seq<Labels> {
    seq(|ds|, k requires 0 <= k < |ds| => LabelsOf(ds[k].labels))
  }

  function EntityLabels(ms: seq<Match>): seq<Labels> {
    seq(|ms|, k requires 0 <= k < |ms| => LabelsOf(Lifted(ms[k].entity).labels))
  }

  /** The labels of everything that is picked, not of one page. */
  ghost function AllLabels(sel: Selector, fleet: seq<Device>): seq<Labels> {
    if sel.scope.DeviceOnly? then DeviceLabels(DeviceMatches(sel, fleet)) else EntityLabels(Matches(sel, fleet))
  }

  /** What is listed and counted, over all pages: a row and the labels for each function or event of the selection, with
      schemas if there are at most twenty; or for each device of it, expanded if there are at most five. */
  lemma ListingIsSelection(sel: Selector, fleet: seq<Device>) returns (ms: seq<Match>, at: seq<nat>)
    ensures !sel.scope.DeviceOnly? ==>
              && IsSelection(ms, sel, fleet)
              && AllRows(sel, fleet) == EntityRows(ms, |ms| <= 20)
              && |AllLabels(sel, fleet)| == |ms|
              && forall k :: 0 <= k < |ms| ==>
                   var labels := Tagged(ms[k].entity);
                   AllLabels(sel, fleet)[k] == (match labels case Some(ts) => ts case None => [])
    ensures sel.scope.DeviceOnly? ==>
              && IsDeviceSelection(DeviceMatches(sel, fleet), at, sel, fleet)
              && AllRows(sel, fleet) == DeviceRows(DeviceMatches(sel, fleet), |at| <= 5)
              && |AllLabels(sel, fleet)| == |at|
              && forall k :: 0 <= k < |at| ==>
                   var labels := fleet[at[k]].labels;
                   AllLabels(sel, fleet)[k] == (match labels case Some(ts) => ts case None => [])
  {
    hide IsSelection, Matches, DeviceMatches, PicksDevice, EntityRows, DeviceRows;
    ms := Matches(sel, fleet);
    MatchesExact(sel, fleet);
    at := DeviceMatchesExact(sel, fleet);
  }

  /** The formatted histogram of some items, with the numbers of devices where they are devices. */
  ghost predicate IsHistogramOf(h: map<string, Histogram.Shown>, items: seq<Labels>, devices: bool) {
    Histogram.IsFormatted(h, Histogram.AddAll(map[], Histogram.Observations(items)), Histogram.ListKeys(items),
                          if devices then Some(Histogram.BumpItems(items)) else None)
  }

  method HistogramOf(items: seq<Labels>, devices: bool) returns (h: map<string, Histogram.Shown>)
    ensures IsHistogramOf(h, items, devices)
  {
    hide Histogram.IsFormatted, Histogram.AddAll, Histogram.Observations, Histogram.ListKeys, Histogram.BumpItems;
    var counted := Histogram.CountLabels(items);
    h := Histogram.Format(counted.histogram, counted.multivalued, if devices then Some(counted.unique) else None);
  }

  // ----- discover -----

  method FilterPicks(f: Option<Filter>, name: string, labels: Option<Labels>) returns (r: bool)
    ensures r <==> Picks(f, name, labels)
  {
    if f.None? { return true; }
    r := FilterMatches(f.value, name, labels);
  }

  method PickEntities(sel: Selector, i: nat, d: Device) returns (ms: seq<Match>)
    ensures ms == EntityMatches(sel, i, d, Entities(d, sel.scope))
  {
    var es := Entities(d, sel.scope);
    ms := [];
    for j := 0 to |es|
      invariant ms == EntityMatches(sel, i, d, es[..j])
    {
      assert es[..j + 1][..j] == es[..j];
      var entity := Lifted(es[j]);
      var ok := FilterPicks(EntityFilter(sel), entity.name, entity.labels);
      if ok { ms := ms + [Match(i, j, d, entity)]; }
    }
    assert es[..|es|] == es;
  }

  method PickDevices(sel: Selector, fleet: seq<Device>) returns (ds: seq<Device>)
    ensures ds == DeviceMatches(sel, fleet)
  {
    ds := [];
    for i := 0 to |fleet|
      invariant ds == DeviceMatches(sel, fleet[..i])
    {
      assert fleet[..i + 1][..i] == fleet[..i];
      var ok := FilterPicks(sel.device, fleet[i].id, fleet[i].labels);
      if ok { ds := ds + [fleet[i]]; }
    }
    assert fleet[..|fleet|] == fleet;
  }

  method PickMatches(sel: Selector, fleet: seq<Device>) returns (ms: seq<Match>)
    ensures ms == Matches(sel, fleet)
  {
    ms := [];
    for i := 0 to |fleet|
      invariant ms == Matches(sel, fleet[..i])
    {
      assert fleet[..i + 1][..i] == fleet[..i];
      var ok := FilterPicks(sel.device, fleet[i].id, fleet[i].labels);
      if ok {
        var found := PickEntities(sel, i, fleet[i]);
        ms := ms + found;
      }
    }
    assert fleet[..|fleet|] == fleet;
  }

  /** `discover`: one page of the rows, and on every page the number of them all and their
      histogram. The fleet is missing when the
      registry cannot be reached. */
  method Discover(selector: string, fleet: Option<seq<Device>>, offset: int, limit: int) returns (r: Envelope)
    ensures ParseSelector(selector).Err? ==> r == Failed("selector_parse_error", None)
    ensures ParseSelector(selector).Ok? && fleet.None? ==>
      r == Failed("connection_error", Some(ParseSelector(selector).value.scope))
    ensures ParseSelector(selector).Ok? && fleet.Some? ==>
      var sel := ParseSelector(selector).value;
      var all := AllRows(sel, fleet.value);
      var asked := Normalized(offset, limit, DEFAULT_LIMIT);
      var page := Paginate(all, asked.0, asked.1);
      && r.Envelope? && r == Envelope(sel.scope, |all|, asked.0, page.next, page.items, r.histogram)
      && IsHistogramOf(r.histogram, AllLabels(sel, fleet.value), sel.scope.DeviceOnly?)
  {
    hide ParseSelector, WellFormed, Print, Matches, DeviceMatches, DeviceRows, EntityRows, Paginate, Normalized,
      IsHistogramOf, DeviceLabels, EntityLabels;
    var (from, size) := Normalized(offset, limit, DEFAULT_LIMIT);
    var parsed := SelectorScanner.Parse(selector);
    if parsed.Err? { return Failed("selector_parse_error", None); }
    var sel := parsed.value;
    if fleet.None? { return Failed("connection_error", Some(sel.scope)); }
    if sel.scope.DeviceOnly? {
      var ds := PickDevices(sel, fleet.value);
      var page := Paginate(ds, from, size);
      DeviceRowsPaged(ds, from, size, |ds| <= SMALL_FLEET_THRESHOLD);
      var devices := HistogramOf(DeviceLabels(ds), true);
      return Envelope(sel.scope, |ds|, from, page.next, DeviceRows(page.items, |ds| <= SMALL_FLEET_THRESHOLD), devices);
    }
    var ms := PickMatches(sel, fleet.value);
    var page := Paginate(ms, from, size);
    EntityRowsPaged(ms, from, size, |ms| <= FUNCTION_THRESHOLD);
    var histogram := HistogramOf(EntityLabels(ms), false);
    return Envelope(sel.scope, |ms|, from, page.next, EntityRows(page.items, |ms| <= FUNCTION_THRESHOLD), histogram);
  }

  datatype Resolution = Resolved(rows: seq<Row>) | Rejected(code: string, scope: Option<Scope>)

  /** `_resolve_function_tuples`: the walk over the pages ends, and collects a row for each function that the
      selector picks, once and in the fleet's order, whatever the size of the fleet. */
  method ResolveFunctionTuples(selector: string, fleet: Option<seq<Device>>) returns (r: Resolution)
    ensures ParseSelector(selector).Err? ==> r == Rejected("selector_parse_error", None)
    ensures ParseSelector(selector).Ok? && fleet.None? ==>
      r == Rejected("connection_error", Some(ParseSelector(selector).value.scope))
    ensures ParseSelector(selector).Ok? && fleet.Some? ==>
      var sel := ParseSelector(selector).value;
      if ForFunctions(sel.scope) then
        exists ms :: IsSelection(ms, sel, fleet.value) && r == Resolved(EntityRows(ms, |ms| <= 20))
      else r == Rejected("invalid_invoke_scope", Some(sel.scope))
  {
    hide ParseSelector, IsSelection, EntityRows, AllRows, Paginate, Normalized, IsHistogramOf, AllLabels;
    var rows: seq<Row> := [];
    var offset := 0;
    ghost var parsed := ParseSelector(selector);
    ghost var all: seq<Row> := if parsed.Ok? && fleet.Some? then AllRows(parsed.value, fleet.value) else [];
    while true
      invariant 0 <= offset && (offset < |all| || offset == 0) && rows == all[..offset]
      decreases |all| - offset
    {
      var page := Discover(selector, fleet, offset, HARD_LIMIT);
      if page.Failed? { return Rejected(page.code, page.scope); }
      if !ForFunctions(page.scope_) { return Rejected("invalid_invoke_scope", Some(page.scope_)); }
      PageAt(all, offset);
      rows := rows + page.rows;
      if page.next.None? { break; }
      offset := page.next.value;
    }
    assert rows == all;
    FunctionRows(parsed.value, fleet.value);
    return Resolved(rows);
  }

  lemma PageAt(all: seq<Row>, offset: nat)
    requires offset < |all| || offset == 0
    ensures var asked := Normalized(offset, HARD_LIMIT, DEFAULT_LIMIT);
            var page := Paginate(all, asked.0, asked.1);
            && asked.0 == offset
            && (page.next.Some? ==> offset < page.next.value < |all|)
            && all[..offset] + page.items == if page.next.Some? then all[..page.next.value] else all
  {
  }

  lemma FunctionRows(sel: Selector, fleet: seq<Device>)
    requires ForFunctions(sel.scope)
    ensures IsSelection(Matches(sel, fleet), sel, fleet)
    ensures AllRows(sel, fleet) == EntityRows(Matches(sel, fleet), |Matches(sel, fleet)| <= FUNCTION_THRESHOLD)
  {
    hide Matches, IsSelection, EntityRows;
    MatchesExact(sel, fleet);
  }
}
