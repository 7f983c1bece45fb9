/** Label histograms over a fleet, their ranking by frequency, and the two forms in which they are shown. */
module Histogram {
  import opened Sequences
  import opened Text
  import opened Matching
  import opened Paging

  datatype Observation = Observation(key: string, value: string)

  type Counts = map<string, nat>
  type Table = map<string, Counts>

  // ----- observations -----

  function Tagged(key: string, values: seq<string>): seq<Observation> {
    seq(|values|, i requires 0 <= i < |values| => Observation(key, values[i]))
  }

  /** A list contributes one observation for each member. */
  function Observed(tags: seq<Tag>): seq<Observation> {
    if tags == [] then [] else
      var n := |tags| - 1;
      Observed(tags[..n]) + Tagged(tags[n].key, Actual(tags[n].value))
  }

  function Observations(items: seq<Labels>): seq<Observation>
    decreases |items|
  {
    if items == [] then [] else
      var n := |items| - 1;
      Observations(items[..n]) + Observed(items[n])
  }

  function Get(t: Table, o: Observation): nat {
    if o.key in t && o.value in t[o.key] then t[o.key][o.value] else 0
  }

  function Add(t: Table, o: Observation): Table {
    var counts: Counts := if o.key in t then t[o.key] else map[];
    t[o.key := counts[o.value := Get(t, o) + 1]]
  }

  function AddAll(t: Table, os: seq<Observation>): Table {
    if os == [] then t else
      var n := |os| - 1;
      Add(AddAll(t, os[..n]), os[n])
  }

  lemma {:induction false} AddAllJoin(t: Table, a: seq<Observation>, b: seq<Observation>)
    ensures AddAll(t, a + b) == AddAll(AddAll(t, a), b)
    decreases |b|
  {
    if b == [] {
      assert a + b == a;
    } else {
      var n := |b| - 1;
      assert (a + b)[..|a| + n] == a + b[..n];
      AddAllJoin(t, a, b[..n]);
    }
  }

  function TagLists(tags: seq<Tag>): set<string> {
    if tags == [] then {} else
      var n := |tags| - 1;
      TagLists(tags[..n]) + (if tags[n].value.Many? then {tags[n].key} else {})
  }

  function ListKeys(items: seq<Labels>): set<string>
    decreases |items|
  {
    if items == [] then {} else ListKeys(items[..|items| - 1]) + TagLists(items[|items| - 1])
  }

  function Bump(u: Counts, key: string): Counts {
    u[key := (if key in u then u[key] else 0) + 1]
  }

  function BumpAll(u: Counts, tags: seq<Tag>): Counts {
    if tags == [] then u else
      var n := |tags| - 1;
      Bump(BumpAll(u, tags[..n]), tags[n].key)
  }

  function BumpItems(items: seq<Labels>): Counts
    decreases |items|
  {
    if items == [] then map[] else
      var n := |items| - 1;
      BumpAll(BumpItems(items[..n]), items[n])
  }

  lemma NoTags(t: Table, u: Counts)
    ensures AddAll(t, Observed([])) == t && TagLists([]) == {} && BumpAll(u, []) == u
  {
  }

  lemma NextTag(tags: seq<Tag>, i: nat, u: Counts)
    requires i < |tags|
    ensures Observed(tags[..i + 1]) == Observed(tags[..i]) + Tagged(tags[i].key, Actual(tags[i].value))
    ensures TagLists(tags[..i + 1]) == TagLists(tags[..i]) + (if tags[i].value.Many? then {tags[i].key} else {})
    ensures BumpAll(u, tags[..i + 1]) == Bump(BumpAll(u, tags[..i]), tags[i].key)
  {
    hide Tagged, Actual, Bump;
    assert tags[..i + 1][..i] == tags[..i];
  }

  class LabelHistogram {
    var histogram: Table
    var multivalued: set<string>
    var unique: map<string, nat>

    constructor ()
      ensures histogram == map[] && multivalued == {} && unique == map[]
    {
      histogram, multivalued, unique := map[], {}, map[];
    }

    /** `_accumulate_label`. */
    method AccumulateLabel(key: string, value: LabelValue)
      modifies this`histogram, this`multivalued
      ensures histogram == AddAll(old(histogram), Tagged(key, Actual(value)))
      ensures multivalued == if value.Many? then old(multivalued) + {key} else old(multivalued)
    {
      hide Add;
      ghost var all := Tagged(key, Actual(value));
      match value
      case Many(texts) =>
        multivalued := multivalued + {key};
        for i := 0 to |texts|
          invariant histogram == AddAll(old(histogram), all[..i]) && multivalued == old(multivalued) + {key}
        {
          assert all[..i + 1][..i] == all[..i] && all[i] == Observation(key, texts[i]);
          histogram := Add(histogram, Observation(key, texts[i]));
        }
        assert |all| == |texts| && all[..|texts|] == all;
      case One(text) =>
        assert all == [Observation(key, text)] && all[..0] == [];
        assert AddAll(histogram, all) == Add(histogram, all[0]);
        histogram := Add(histogram, Observation(key, text));
    }

    /** The inner loop of `label_histogram`, over the labels of one item. */
    method AddItem(item: Labels)
      modifies this
      ensures histogram == AddAll(old(histogram), Observed(item))
      ensures multivalued == old(multivalued) + TagLists(item)
      ensures unique == BumpAll(old(unique), item)
    {
      hide *;
      NoTags(histogram, unique);
      ghost var tags: seq<Tag> := item;
      assert tags[..0] == [] && tags[..|tags|] == tags;
      for i := 0 to |item|
        invariant histogram == AddAll(old(histogram), Observed(tags[..i]))
        invariant multivalued == old(multivalued) + TagLists(tags[..i])
        invariant unique == BumpAll(old(unique), tags[..i])
      {
        NextTag(tags, i, old(unique));
        unique := Bump(unique, item[i].key);
        AddAllJoin(old(histogram), Observed(tags[..i]), Tagged(tags[i].key, Actual(tags[i].value)));
        AccumulateLabel(item[i].key, item[i].value);
      }
    }
  }

  /** `label_histogram` with `count_unique`. */
  method CountLabels(items: seq<Labels>) returns (h: LabelHistogram)
    ensures h.histogram == AddAll(map[], Observations(items)) && h.multivalued == ListKeys(items)
    ensures h.unique == BumpItems(items)
  {
    h := new LabelHistogram();
    for i := 0 to |items|
      invariant h.histogram == AddAll(map[], Observations(items[..i])) && h.multivalued == ListKeys(items[..i])
      invariant h.unique == BumpItems(items[..i])
    {
      assert items[..i + 1][..i] == items[..i];
      AddAllJoin(map[], Observations(items[..i]), Observed(items[i]));
      h.AddItem(items[i]);
    }
    assert items[..|items|] == items;
  }

  // ----- what the histogram says -----

  /** The table holds each observation as often as it was made, and nothing that was not. */
  ghost predicate Tallies(t: Table, os: seq<Observation>) {
    && (forall o :: Get(t, o) == multiset(os)[o])
    && (forall k :: k in t ==> t[k] != map[] && forall v :: v in t[k] ==> t[k][v] > 0)
  }

  lemma AddGets(t: Table, o: Observation, x: Observation)
    ensures Get(Add(t, o), x) == Get(t, x) + (if x == o then 1 else 0)
  {
    var counts: Counts := if o.key in t then t[o.key] else map[];
    var counts' := counts[o.value := Get(t, o) + 1];
    assert Add(t, o) == t[o.key := counts'];
    if x.key == o.key && x.value != o.value { assert x.value in counts' <==> x.value in counts; }
  }

  lemma AddTallies(t: Table, os: seq<Observation>, o: Observation)
    requires Tallies(t, os)
    ensures Tallies(Add(t, o), os + [o])
  {
    var t' := Add(t, o);
    forall x ensures Get(t', x) == multiset(os + [o])[x] {
      hide Add, Get;
      AddGets(t, o, x);
      assert Get(t, x) == multiset(os)[x];
    }
    forall k | k in t' ensures t'[k] != map[] && forall v :: v in t'[k] ==> t'[k][v] > 0 {
      if k == o.key { assert o.value in t'[k]; }
    }
  }

  lemma {:induction false} AddAllTallies(os: seq<Observation>)
    ensures Tallies(AddAll(map[], os), os)
  {
    hide Add, Tallies;
    if os == [] {
      NoTallies();
    } else {
      var n := |os| - 1;
      AddAllTallies(os[..n]);
      AddTallies(AddAll(map[], os[..n]), os[..n], os[n]);
      assert os == os[..n] + [os[n]];
    }
  }

  lemma NoTallies()
    ensures Tallies(map[], [])
  {
  }

  /** Tallies of the same observations are the same table. */
  lemma TallyIsUnique(t: Table, t': Table, os: seq<Observation>, os': seq<Observation>)
    requires Tallies(t, os) && Tallies(t', os') && multiset(os) == multiset(os')
    ensures t == t'
  {
    SubTable(t, t', os, os');
    SubTable(t', t, os', os);
    assert forall k :: k in t ==> t[k] == t'[k];
  }

  lemma SubTable(t: Table, t': Table, os: seq<Observation>, os': seq<Observation>)
    requires Tallies(t, os) && Tallies(t', os') && multiset(os) == multiset(os')
    ensures forall k :: k in t ==> k in t' && forall v :: v in t[k] ==> v in t'[k] && t'[k][v] == t[k][v]
  {
    forall k, v | k in t && v in t[k] ensures k in t' && v in t'[k] && t'[k][v] == t[k][v] {
      var o := Observation(k, v);
      assert Get(t, o) == multiset(os)[o] == Get(t', o);
    }
    forall k | k in t ensures k in t' {
      var v :| v in t[k];
      assert Get(t, Observation(k, v)) > 0;
    }
  }

  lemma WithoutCounts<T>(s: seq<T>, i: nat)
    requires i < |s|
    ensures multiset(s) == multiset{s[i]} + multiset(Without(s, i))
  {
    assert s == s[..i] + [s[i]] + s[i + 1..];
  }

  lemma Cancel<T>(a: multiset<T>, b: multiset<T>, x: T)
    requires multiset{x} + a == multiset{x} + b
    ensures a == b
  {
    assert a == multiset{x} + a - multiset{x} && b == multiset{x} + b - multiset{x};
  }

  lemma WithoutEarly<T>(s: seq<T>, i: nat)
    requires i < |s| - 1
    ensures var w, n := Without(s, i), |s| - 1;
            |w| == n && w[..n - 1] == Without(s[..n], i) && w[n - 1] == s[n]
  {
  }

  lemma WithoutLast<T>(s: seq<T>)
    requires s != []
    ensures Without(s, |s| - 1) == s[..|s| - 1]
  {
  }

  lemma {:induction false} ObservationsFrom(items: seq<Labels>, i: nat)
    requires i < |items|
    ensures multiset(Observations(items)) == multiset(Observed(items[i])) + multiset(Observations(Without(items, i)))
    decreases |items|
  {
    hide Observed, Without;
    var n := |items| - 1;
    if i == n {
      WithoutLast(items);
    } else {
      ObservationsFrom(items[..n], i);
      WithoutEarly(items, i);
    }
  }

  lemma {:induction false} SameObservations(items: seq<Labels>, items': seq<Labels>)
    requires multiset(items) == multiset(items')
    ensures multiset(Observations(items)) == multiset(Observations(items'))
    decreases |items|
  {
    hide Observed, Without;
    if items == [] {
      assert |multiset(items')| == 0;
    } else {
      var n := |items| - 1;
      assert items[n] in multiset(items');
      var i :| 0 <= i < |items'| && items'[i] == items[n];
      WithoutCounts(items', i);
      WithoutCounts(items, n);
      WithoutLast(items);
      Cancel(multiset(items[..n]), multiset(Without(items', i)), items[n]);
      SameObservations(items[..n], Without(items', i));
      ObservationsFrom(items', i);
    }
  }

  /** The histogram does not depend on the order of the items. */
  lemma OrderDoesNotMatter(items: seq<Labels>, items': seq<Labels>)
    requires multiset(items) == multiset(items')
    ensures AddAll(map[], Observations(items)) == AddAll(map[], Observations(items'))
  {
    SameObservations(items, items');
    AddAllTallies(Observations(items));
    AddAllTallies(Observations(items'));
    TallyIsUnique(AddAll(map[], Observations(items)), AddAll(map[], Observations(items')),
                  Observations(items), Observations(items'));
  }

  /** How often a label has a value: once if it is the label's string, or as often as the label's list holds it. */
  function TimesIn(tags: seq<Tag>, key: string, value: string): nat {
    if tags == [] then 0
    else
      TimesIn(tags[1..], key, value) +
      if tags[0].key != key then 0
      else
        match tags[0].value
        case One(text) => if text == value then 1 else 0
        case Many(texts) => multiset(texts)[value]
  }

  function Times(items: seq<Labels>, key: string, value: string): nat {
    if items == [] then 0 else TimesIn(items[0], key, value) + Times(items[1..], key, value)
  }

  lemma {:induction false} TaggedTimes(key: string, values: seq<string>, o: Observation)
    ensures multiset(Tagged(key, values))[o] == if o.key == key then multiset(values)[o.value] else 0
    decreases |values|
  {
    if values == [] {
    } else {
      var n := |values| - 1;
      TaggedTimes(key, values[..n], o);
      assert Tagged(key, values) == Tagged(key, values[..n]) + [Observation(key, values[n])];
      assert values == values[..n] + [values[n]];
    }
  }

  lemma {:induction false} TimesInLast(tags: seq<Tag>, tag: Tag, key: string, value: string)
    ensures TimesIn(tags + [tag], key, value) == TimesIn(tags, key, value) + TimesIn([tag], key, value)
    decreases |tags|
  {
    if tags == [] {
      assert [] + [tag] == [tag];
    } else {
      assert (tags + [tag])[1..] == tags[1..] + [tag];
      TimesInLast(tags[1..], tag, key, value);
    }
  }

  lemma {:induction false} ObservedTimes(tags: seq<Tag>, key: string, value: string)
    ensures multiset(Observed(tags))[Observation(key, value)] == TimesIn(tags, key, value)
  {
    if tags == [] {
    } else {
      var n := |tags| - 1;
      ObservedTimes(tags[..n], key, value);
      TimesInLast(tags[..n], tags[n], key, value);
      TaggedTimes(tags[n].key, Actual(tags[n].value), Observation(key, value));
      assert tags == tags[..n] + [tags[n]] && [tags[n]][1..] == [];
    }
  }

  lemma {:induction false} TimesLast(items: seq<Labels>, item: Labels, key: string, value: string)
    ensures Times(items + [item], key, value) == Times(items, key, value) + TimesIn(item, key, value)
    decreases |items|
  {
    hide TimesIn;
    if items == [] {
      assert [] + [item] == [item] && [item][1..] == [];
    } else {
      assert (items + [item])[1..] == items[1..] + [item];
      TimesLast(items[1..], item, key, value);
    }
  }

  lemma {:induction false} ObservationsTimes(items: seq<Labels>, key: string, value: string)
    ensures multiset(Observations(items))[Observation(key, value)] == Times(items, key, value)
    decreases |items|
  {
    hide Observed, TimesIn;
    if items == [] {
    } else {
      var n := |items| - 1;
      ObservationsTimes(items[..n], key, value);
      ObservedTimes(items[n], key, value);
      TimesLast(items[..n], items[n], key, value);
      assert items == items[..n] + [items[n]];
    }
  }

  /** The table of a fleet: a value is counted under a key as often as the items' labels have it, and what none has is
      not in the table. */
  lemma TableCounts(items: seq<Labels>, key: string, value: string)
    ensures var t := AddAll(map[], Observations(items));
            && (key in t && value in t[key] <==> Times(items, key, value) > 0)
            && (key in t && value in t[key] ==> t[key][value] == Times(items, key, value))
            && (key in t ==> exists v :: v in t[key] && Times(items, key, v) > 0)
  {
    hide AddAll, Observations, Times;
    var t, os := AddAll(map[], Observations(items)), Observations(items);
    AddAllTallies(os);
    ObservationsTimes(items, key, value);
    assert Get(t, Observation(key, value)) == multiset(os)[Observation(key, value)];
    if key in t {
      var v :| v in t[key];
      ObservationsTimes(items, key, v);
      assert Get(t, Observation(key, v)) == multiset(os)[Observation(key, v)];
    }
  }

  /** The keys that some item gives a list for. */
  lemma {:induction false} ListKeysMean(items: seq<Labels>, key: string)
    ensures key in ListKeys(items) <==>
            exists i, j :: 0 <= i < |items| && 0 <= j < |items[i]| && items[i][j].key == key && items[i][j].value.Many?
    decreases |items|
  {
    if items == [] {
    } else {
      var n := |items| - 1;
      ListKeysMean(items[..n], key);
      TagListsMean(items[n], key);
    }
  }

  lemma {:induction false} TagListsMean(tags: seq<Tag>, key: string)
    ensures key in TagLists(tags) <==> exists j :: 0 <= j < |tags| && tags[j].key == key && tags[j].value.Many?
  {
    if tags == [] {
    } else {
      TagListsMean(tags[..|tags| - 1], key);
    }
  }

  predicate Declares(tags: seq<Tag>, key: string) {
    tags != [] && (tags[|tags| - 1].key == key || Declares(tags[..|tags| - 1], key))
  }

  /** The number of items that declare a key. */
  function Declaring(items: seq<Labels>, key: string): nat
    decreases |items|
  {
    if items == [] then 0 else
      var n := |items| - 1;
      Declaring(items[..n], key) + (if Declares(items[n], key) then 1 else 0)
  }

  lemma {:induction false} BumpAllCounts(u: Counts, tags: seq<Tag>, key: string)
    requires forall i, j :: 0 <= i < j < |tags| ==> tags[i].key != tags[j].key
    ensures var u' := BumpAll(u, tags);
            && (key in u' <==> key in u || Declares(tags, key))
            && (key in u' ==> u'[key] == (if key in u then u[key] else 0) + (if Declares(tags, key) then 1 else 0))
    ensures Declares(tags, key) <==> exists i :: 0 <= i < |tags| && tags[i].key == key
    decreases |tags|
  {
    if tags == [] {
    } else {
      var n := |tags| - 1;
      BumpAllCounts(u, tags[..n], key);
      assert forall i :: 0 <= i < n ==> tags[..n][i].key == tags[i].key;
    }
  }

  /** `unique` counts items, however many values a label lists. */
  lemma {:induction false} UniqueCountsItems(items: seq<Labels>, key: string)
    ensures Declaring(items, key) == if key in BumpItems(items) then BumpItems(items)[key] else 0
    decreases |items|
  {
    if items == [] {
    } else {
      var n := |items| - 1;
      UniqueCountsItems(items[..n], key);
      BumpAllCounts(BumpItems(items[..n]), items[n], key);
    }
  }

  // ----- ranking -----

  datatype Entry = Entry(value: string, count: nat)

  predicate Less(a: string, b: string) {
    b != "" && (a == "" || a[0] < b[0] || (a[0] == b[0] && Less(a[1..], b[1..])))
  }

  /** The order of the sort key `(-count, value)`. */
  predicate Before(a: Entry, b: Entry) {
    a.count > b.count || (a.count == b.count && Less(a.value, b.value))
  }

  /** The one text ends, or has the smaller character, where they first differ. */
  predicate Precedes(a: string, b: string) {
    exists k :: 0 <= k <= |a| && k < |b| && a[..k] == b[..k] && (k == |a| || a[k] < b[k])
  }

  lemma {:induction false} LessMeans(a: string, b: string)
    ensures Less(a, b) <==> Precedes(a, b)
  {
    if b == "" {
    } else if a == "" || a[0] < b[0] {
      assert a[..0] == b[..0];
    } else if a[0] == b[0] {
      LessMeans(a[1..], b[1..]);
      var c, d := a[1..], b[1..];
      if k :| 0 <= k <= |c| && k < |d| && c[..k] == d[..k] && (k == |c| || c[k] < d[k]) {
        assert a[..k + 1] == [a[0]] + c[..k] == b[..k + 1];
      }
      if k :| 0 <= k <= |a| && k < |b| && a[..k] == b[..k] && (k == |a| || a[k] < b[k]) {
        assert k > 0;
        assert c[..k - 1] == a[..k][1..] == b[..k][1..] == d[..k - 1];
      }
    } else {
      forall k | 0 < k <= |a| && k < |b| ensures a[..k] != b[..k] {
        assert a[..k][0] != b[..k][0];
      }
    }
  }

  /** A ranking lists the most frequent values first, and those equally frequent in the order of their texts. */
  lemma SortedMeans(r: seq<Entry>)
    ensures Sorted(r) <==>
            forall i, j :: 0 <= i < j < |r| ==>
              r[i].count > r[j].count || (r[i].count == r[j].count && Precedes(r[i].value, r[j].value))
  {
    hide Less, Precedes;
    forall a, b ensures Less(a, b) <==> Precedes(a, b) { LessMeans(a, b); }
  }

  lemma {:induction false} LessOrders(a: string, b: string)
    ensures !(Less(a, b) && Less(b, a)) && (a != b ==> Less(a, b) || Less(b, a)) && !Less(a, a)
  {
    if a == "" {
    } else {
      LessOrders(a[1..], if b == "" then a[1..] else b[1..]);
      if b != "" && a != b && a[0] == b[0] {
        assert a == [a[0]] + a[1..] && b == [b[0]] + b[1..];
      }
    }
  }

  lemma {:induction false} LessTransits(a: string, b: string, c: string)
    requires Less(a, b) && Less(b, c)
    ensures Less(a, c)
  {
    if a != "" && a[0] == b[0] && b[0] == c[0] { LessTransits(a[1..], b[1..], c[1..]); }
  }

  lemma BeforeTransits(a: Entry, b: Entry, c: Entry)
    requires Before(a, b) && Before(b, c)
    ensures Before(a, c)
  {
    if a.count == b.count == c.count { LessTransits(a.value, b.value, c.value); }
  }

  function Insert(e: Entry, r: seq<Entry>): seq<Entry> {
    if r == [] || Before(e, r[0]) then [e] + r else [r[0]] + Insert(e, r[1..])
  }

  /** The entries of a table, most frequent first, ties by value. */
  function Rank(es: seq<Entry>): seq<Entry> {
    if es == [] then [] else Insert(es[0], Rank(es[1..]))
  }

  predicate Sorted(r: seq<Entry>) {
    forall i, j :: 0 <= i < j < |r| ==> Before(r[i], r[j])
  }

  /** The entries of a table in some order. */
  ghost predicate EntriesOf(es: seq<Entry>, counts: Counts) {
    && (forall e :: e in es <==> e.value in counts && counts[e.value] == e.count)
    && Distinct(es)
  }

  predicate Distinct(es: seq<Entry>) {
    forall i, j :: 0 <= i < j < |es| ==> es[i].value != es[j].value
  }

  lemma {:induction false} InsertSorts(e: Entry, r: seq<Entry>)
    requires Sorted(r) && forall x :: x in r ==> x.value != e.value
    ensures Sorted(Insert(e, r)) && multiset(Insert(e, r)) == multiset([e] + r)
  {
    hide Before;
    if r == [] {
    } else {
      if Before(e, r[0]) {
        forall i | 0 < i < |r| ensures Before(e, r[i]) { BeforeTransits(e, r[0], r[i]); }
      } else {
        EitherBefore(e, r[0]);
        InsertSorts(e, r[1..]);
        assert r == [r[0]] + r[1..];
        var t := Insert(e, r[1..]);
        forall x | x in t ensures Before(r[0], x) {
          assert x in multiset(t);
          assert x == e || x in r[1..];
        }
      }
    }
  }

  lemma EitherBefore(a: Entry, b: Entry)
    requires a.value != b.value
    ensures Before(a, b) || Before(b, a)
  {
    LessOrders(a.value, b.value);
  }

  lemma NotBoth(a: Entry, b: Entry)
    ensures !(Before(a, b) && Before(b, a))
  {
    LessOrders(a.value, b.value);
  }

  lemma {:induction false} RankSorts(es: seq<Entry>)
    requires Distinct(es)
    ensures Sorted(Rank(es)) && multiset(Rank(es)) == multiset(es)
  {
    hide Sorted, Insert;
    if es == [] {
      assert Sorted([]) by { NoneSorted(); }
    } else {
      RankSorts(es[1..]);
      assert es == [es[0]] + es[1..];
      forall x | x in Rank(es[1..]) ensures x.value != es[0].value {
        assert x in multiset(es[1..]);
      }
      InsertSorts(es[0], Rank(es[1..]));
    }
  }

  lemma NoneSorted()
    ensures Sorted([])
  {
  }

  /** Ranking neither drops nor adds, and two rankings of a table are equal: its order of entries plays no part. */
  lemma RankIsUnique(es: seq<Entry>, r: seq<Entry>, counts: Counts)
    requires EntriesOf(es, counts) && EntriesOf(r, counts) && Sorted(r)
    ensures Rank(es) == r && EntriesOf(Rank(es), counts)
  {
    RankSorts(es);
    forall e ensures e in Rank(es) <==> e in r {
      assert e in Rank(es) <==> e in multiset(Rank(es));
    }
    SortedAreEqual(Rank(es), r);
  }

  lemma {:induction false} SortedAreEqual(a: seq<Entry>, b: seq<Entry>)
    requires Sorted(a) && Sorted(b) && forall e :: e in a <==> e in b
    ensures a == b
    decreases |a|
  {
    hide Before;
    assert b != [] ==> b[0] in a;
    if a == [] {
    } else {
      assert a[0] in b && b != [] && b[0] in a;
      NotBoth(a[0], b[0]);
      assert a[0] == b[0];
      forall e ensures e in a[1..] <==> e in b[1..] {
        NotBoth(e, e);
        assert e in a <==> e == a[0] || e in a[1..];
        assert e in b <==> e == b[0] || e in b[1..];
        assert a[0] !in a[1..] && b[0] !in b[1..] by { NotBoth(a[0], a[0]); }
      }
      SortedAreEqual(a[1..], b[1..]);
    }
  }

  /** The entries of a table, in any order. */
  method EntriesFrom(counts: Counts) returns (es: seq<Entry>)
    ensures EntriesOf(es, counts)
  {
    es := [];
    var left := counts.Keys;
    while left != {}
      invariant left <= counts.Keys && Distinct(es)
      invariant forall e :: e in es <==> e.value in counts && e.value !in left && counts[e.value] == e.count
      decreases |left|
    {
      var v :| v in left;
      es := es + [Entry(v, counts[v])];
      left := left - {v};
    }
  }

  // ----- sums -----

  function Total(es: seq<Entry>): nat {
    if es == [] then 0 else es[0].count + Total(es[1..])
  }

  /** The number of observations for a key: one for a string, one for each member of a list. */
  function Made(os: seq<Observation>, key: string): nat {
    if os == [] then 0 else Made(os[..|os| - 1], key) + (if os[|os| - 1].key == key then 1 else 0)
  }

  function Others(os: seq<Observation>, o: Observation): seq<Observation> {
    if os == [] then [] else
      var rest := Others(os[..|os| - 1], o);
      if os[|os| - 1] == o then rest else rest + [os[|os| - 1]]
  }

  lemma MadeNext(os: seq<Observation>, x: Observation, key: string)
    ensures Made(os + [x], key) == Made(os, key) + (if x.key == key then 1 else 0)
  {
    assert (os + [x])[..|os|] == os;
  }

  lemma {:induction false} OthersMade(os: seq<Observation>, o: Observation)
    ensures Made(os, o.key) == multiset(os)[o] + Made(Others(os, o), o.key)
  {
    hide Made;
    if os == [] {
      NoneMade(os, o.key);
    } else {
      var n := |os| - 1;
      OthersMade(os[..n], o);
      assert os == os[..n] + [os[n]];
      MadeNext(os[..n], os[n], o.key);
      if os[n] != o { MadeNext(Others(os[..n], o), os[n], o.key); }
    }
  }

  lemma {:induction false} OthersCount(os: seq<Observation>, o: Observation, x: Observation)
    ensures multiset(Others(os, o))[x] == if x == o then 0 else multiset(os)[x]
  {
    if os == [] {
    } else {
      var n := |os| - 1;
      OthersCount(os[..n], o, x);
      assert os == os[..n] + [os[n]];
    }
  }

  lemma {:induction false} NoneMade(os: seq<Observation>, key: string)
    requires forall v :: multiset(os)[Observation(key, v)] == 0
    ensures Made(os, key) == 0
  {
    if os == [] {
    } else {
      var n := |os| - 1;
      assert os == os[..n] + [os[n]];
      assert os[n] in multiset(os);
      NoneMade(os[..n], key);
    }
  }

  lemma {:induction false} TotalIsMade(es: seq<Entry>, os: seq<Observation>, key: string)
    requires Distinct(es)
    requires forall e :: e in es ==> e.count == multiset(os)[Observation(key, e.value)]
    requires forall v :: multiset(os)[Observation(key, v)] > 0 ==> exists e :: e in es && e.value == v
    ensures Total(es) == Made(os, key)
  {
    if es == [] {
      NoneMade(os, key);
    } else {
      var o := Observation(key, es[0].value);
      OthersMade(os, o);
      forall e | e in es[1..] ensures e.count == multiset(Others(os, o))[Observation(key, e.value)] {
        OthersCount(os, o, Observation(key, e.value));
        assert e.value != es[0].value;
      }
      forall v | multiset(Others(os, o))[Observation(key, v)] > 0 ensures exists e :: e in es[1..] && e.value == v {
        OthersCount(os, o, Observation(key, v));
        var e :| e in es && e.value == v;
        assert e in es[1..];
      }
      TotalIsMade(es[1..], Others(os, o), key);
    }
  }

  // ----- the two forms -----

  /** How `_format_label_histogram` shows a key: its most frequent values and how many were left off. */
  datatype Cropped = Cropped(values: seq<Entry>, more: Option<nat>)

  function TopN(setting: int): nat {
    var capped := if setting < 200 then setting else 200;
    if capped > 1 then capped else 1
  }

  function Crop(ranked: seq<Entry>, setting: int): Cropped {
    var n := TopN(setting);
    if |ranked| > n then Cropped(ranked[..n], Some(|ranked| - n)) else Cropped(ranked, None)
  }

  const LABEL_VALUES_TOP_N: int := 20

  /** An entry of a formatted histogram: a key with lists says so, and on the device axis how many devices
      declare it. */
  datatype Shown = Shown(cropped: Cropped, multivalued: bool, devices: Option<nat>)

  function DevicesShown(key: string, multivalued: set<string>, unique: Option<Counts>): Option<nat> {
    if key in multivalued && unique.Some? && key in unique.value then Some(unique.value[key]) else None
  }

  ghost predicate IsShown(e: Shown, key: string, counts: Counts, multivalued: set<string>, unique: Option<Counts>) {
    && (exists ranked :: EntriesOf(ranked, counts) && Sorted(ranked) && e.cropped == Crop(ranked, 20))
    && (e.multivalued <==> key in multivalued)
    && (e.devices.Some? <==> key in multivalued && unique.Some? && key in unique.value)
    && (e.devices.Some? ==> e.devices.value == unique.value[key])
  }

  /** Every key is shown with the first entries of its ranking. */
  ghost predicate IsFormatted(out: map<string, Shown>, t: Table, multivalued: set<string>, unique: Option<Counts>) {
    out.Keys == t.Keys && forall k :: k in t ==> IsShown(out[k], k, t[k], multivalued, unique)
  }

  /** `_format_label_histogram`. */
  method Format(t: Table, multivalued: set<string>, unique: Option<Counts>) returns (out: map<string, Shown>)
    ensures IsFormatted(out, t, multivalued, unique)
  {
    hide IsShown;
    out := map[];
    var left := t.Keys;
    while left != {}
      invariant left <= t.Keys && out.Keys == t.Keys - left
      invariant forall k :: k in out ==> IsShown(out[k], k, t[k], multivalued, unique)
      decreases |left|
    {
      var k :| k in left;
      var e := FormatKey(k, t[k], multivalued, unique);
      out := out[k := e];
      left := left - {k};
    }
  }

  method FormatKey(k: string, counts: Counts, multivalued: set<string>, unique: Option<Counts>) returns (e: Shown)
    ensures IsShown(e, k, counts, multivalued, unique)
  {
    hide Rank, Sorted, EntriesOf, Crop;
    var es := EntriesFrom(counts);
    RankFromEntries(es, counts);
    return Shown(Crop(Rank(es), LABEL_VALUES_TOP_N), k in multivalued, DevicesShown(k, multivalued, unique));
  }

  /** Over every fleet: for a key of the histogram, whatever order the table lists its entries in, the pages of the
      per-key form put together are one ranking of all its values whose counts add up to the observations made; and
      the cropped form shows the first of them, between 1 and 200, and tells the number of the rest. */
  lemma FormsAgree(items: seq<Labels>, key: string, es: seq<Entry>, es': seq<Entry>, limit: nat, setting: int)
    requires limit > 0
    requires var t := AddAll(map[], Observations(items));
             key in t && EntriesOf(es, t[key]) && EntriesOf(es', t[key])
    ensures var pages := Flat(Walk(Rank(es'), 0, limit));
            var shown := Crop(Rank(es), setting);
            && Sorted(pages) && EntriesOf(pages, AddAll(map[], Observations(items))[key])
            && Total(pages) == Made(Observations(items), key)
            && shown.values <= pages
            && |shown.values| == (var n := if setting < 1 then 1 else if setting > 200 then 200 else setting;
                                  if |pages| < n then |pages| else n)
            && |shown.values| + (if shown.more.Some? then shown.more.value else 0) == |pages|
            && (shown.more.Some? ==> shown.more.value > 0)
  {
    hide Walk, Flat, Crop, Rank, Sorted, EntriesOf, Total, Made, Tallies, AddAll, Observations;
    var os := Observations(items);
    AddAllTallies(os);
    var t := AddAll(map[], os);
    RankFromEntries(es, t[key]);
    RankIsUnique(es', Rank(es), t[key]);
    PagesGiveWhole(Rank(es), limit);
    RankedTotal(Rank(es), t, os, key);
    CropShows(Rank(es), setting);
  }

  lemma CropShows(r: seq<Entry>, setting: int)
    requires r != []
    ensures var shown := Crop(r, setting);
            && shown.values <= r
            && |shown.values| == (var n := if setting < 1 then 1 else if setting > 200 then 200 else setting;
                                  if |r| < n then |r| else n)
            && |shown.values| + (if shown.more.Some? then shown.more.value else 0) == |r|
            && (shown.more.Some? ==> shown.more.value > 0)
  {
  }

  lemma RankFromEntries(es: seq<Entry>, counts: Counts)
    requires EntriesOf(es, counts)
    ensures EntriesOf(Rank(es), counts) && Sorted(Rank(es))
  {
    RankSorts(es);
    var r := Rank(es);
    forall e ensures e in r <==> e in es {
      assert e in r <==> e in multiset(r);
      assert e in es <==> e in multiset(es);
    }
    forall i, j | 0 <= i < j < |r| ensures r[i].value != r[j].value {
      NotBoth(r[i], r[j]);
      assert r[i] in es && r[j] in es;
      LessOrders(r[i].value, r[j].value);
    }
  }

  lemma RankedTotal(r: seq<Entry>, t: Table, os: seq<Observation>, key: string)
    requires Tallies(t, os) && key in t && EntriesOf(r, t[key])
    ensures Total(r) == Made(os, key) && r != []
  {
    var first :| first in t[key];
    assert Entry(first, t[key][first]) in r;
    forall e | e in r ensures e.count == multiset(os)[Observation(key, e.value)] {
      assert Get(t, Observation(key, e.value)) == e.count;
    }
    forall v | multiset(os)[Observation(key, v)] > 0 ensures exists e :: e in r && e.value == v {
      assert Get(t, Observation(key, v)) > 0;
      assert Entry(v, t[key][v]) in r;
    }
    TotalIsMade(r, os, key);
  }
}
