/** Re-declaring the Zenoh subscriptions after a reconnect: a table of specs, wrapper objects that callers hold, and
    declarations that may fail. */
module Reconnect {
  import opened Sequences
  import opened Text
  import Subjects

  // ----- key expressions -----

  // Every slash followed by a greater-than sign becomes a slash followed by two stars.
  function ReplaceTails(s: string): string {
    if |s| >= 2 && s[0] == '/' && s[1] == '>' then "/**" + ReplaceTails(s[2..])
    else if s == "" then "" else [s[0]] + ReplaceTails(s[1..])
  }

  /** `convert_subject_syntax` of the Zenoh adapter. */
  function ConvertKey(subject: string): string {
    if '/' in subject then subject
    else
      var key := Replace(subject, '.', '/');
      ReplaceTails(if EndsWith(key, "/>") then key[..|key| - 2] + "/**" else key)
  }

  lemma {:induction false} TailsKeepSlash(s: string)
    ensures '/' in ReplaceTails(s) <==> '/' in s
    ensures '/' !in s ==> ReplaceTails(s) == s
  {
    if |s| >= 2 && s[0] == '/' && s[1] == '>' {
      assert "/**"[0] == '/' && '/' in "/**";
    } else if s != "" {
      TailsKeepSlash(s[1..]);
      assert s == [s[0]] + s[1..];
    }
  }

  /** Converting a converted key changes nothing, whatever the subject. */
  lemma ConvertKeyIdempotent(subject: string)
    ensures ConvertKey(ConvertKey(subject)) == ConvertKey(subject)
  {
    if '/' !in subject {
      var key := Replace(subject, '.', '/');
      var bare := if EndsWith(key, "/>") then key[..|key| - 2] + "/**" else key;
      TailsKeepSlash(bare);
      if '/' !in ConvertKey(subject) {
        assert EndsWith(key, "/>") ==> '/' in "/**" && '/' in bare;
        assert forall k :: 0 <= k < |subject| ==> key[k] == subject[k];
        assert key == subject;
      }
    }
  }

  function Starred(t: string): string {
    if t != "" && t[0] == '>' then "**" + t[1..] else t
  }

  /** Every level but the first is starred. */
  function StarTails(ts: seq<string>): seq<string> {
    seq(|ts|, k requires 0 <= k < |ts| => if k == 0 then ts[0] else Starred(ts[k]))
  }

  function StarAll(ts: seq<string>): seq<string> {
    seq(|ts|, k requires 0 <= k < |ts| => Starred(ts[k]))
  }

  lemma {:induction false} TailsSkip(t: string, more: string)
    requires '/' !in t && (more == "" || more[0] == '/')
    ensures ReplaceTails(t + more) == t + ReplaceTails(more)
  {
    if t == "" {
      assert t + more == more;
    } else {
      assert (t + more)[1..] == t[1..] + more;
      TailsSkip(t[1..], more);
    }
  }

  lemma TailsSlash(rest: string)
    ensures ReplaceTails("/" + rest) ==
            if rest != "" && rest[0] == '>' then "/**" + ReplaceTails(rest[1..]) else "/" + ReplaceTails(rest)
  {
    var s := "/" + rest;
    assert s[1..] == rest;
    if rest != "" { assert s[2..] == rest[1..]; }
  }

  lemma TailsLevel(t: string, more: string)
    requires '/' !in t && (more == "" || more[0] == '/')
    ensures ReplaceTails("/" + t + more) == "/" + Starred(t) + ReplaceTails(more)
  {
    hide ReplaceTails;
    assert "/" + t + more == "/" + (t + more);
    TailsSlash(t + more);
    if t != "" && t[0] == '>' {
      assert (t + more)[1..] == t[1..] + more;
      TailsSkip(t[1..], more);
    } else {
      TailsSkip(t, more);
    }
  }

  // The levels of a key after the first, each with the slash before it.
  function Slashed(ts: seq<string>): string {
    if ts == [] then "" else "/" + ts[0] + Slashed(ts[1..])
  }

  lemma {:induction false} JoinSlashed(ts: seq<string>)
    requires ts != []
    ensures Join(ts, '/') == ts[0] + Slashed(ts[1..])
  {
    if |ts| > 1 {
      JoinSlashed(ts[1..]);
    }
  }

  lemma {:induction false} TailsSlashed(ts: seq<string>)
    requires forall k :: 0 <= k < |ts| ==> '/' !in ts[k]
    ensures ReplaceTails(Slashed(ts)) == Slashed(StarAll(ts))
  {
    if ts == [] {
    } else {
      TailsSlashed(ts[1..]);
      TailsLevel(ts[0], Slashed(ts[1..]));
      assert StarAll(ts)[1..] == StarAll(ts[1..]);
    }
  }

  lemma TailsJoined(ts: seq<string>)
    requires ts != [] && forall k :: 0 <= k < |ts| ==> '/' !in ts[k]
    ensures ReplaceTails(Join(ts, '/')) == Join(StarTails(ts), '/')
  {
    hide ReplaceTails, Join, Starred;
    JoinSlashed(ts);
    JoinSlashed(StarTails(ts));
    TailsSlashed(ts[1..]);
    TailsSkip(ts[0], Slashed(ts[1..]));
    assert StarTails(ts)[1..] == StarAll(ts[1..]);
  }

  /** Converting a subject keeps its tokens as the levels of the key; a final `>` becomes `**`, as does a `>` that
      opens any other token but the first. */
  lemma ConvertKeyTokens(ts: seq<string>)
    requires ts != [] && forall k :: 0 <= k < |ts| ==> Subjects.Plain(ts[k])
    ensures ConvertKey(Join(ts, '.')) == Join(StarTails(ts), '/')
  {
    hide *;
    ConvertParts(ts);
    if |ts| >= 2 && ts[|ts| - 1] == ">" {
      PlainLast(ts);
      TailsJoined(ts[|ts| - 1 := "**"]);
      StarLast(ts);
    } else {
      PlainLast(ts);
      TailsJoined(ts);
    }
  }

  lemma ConvertParts(ts: seq<string>)
    requires ts != [] && forall k :: 0 <= k < |ts| ==> Subjects.Plain(ts[k])
    ensures var key := Join(ts, '/');
            if |ts| >= 2 && ts[|ts| - 1] == ">" then
              |key| >= 2 && ConvertKey(Join(ts, '.')) == ReplaceTails(key[..|key| - 2] + "/**")
            else ConvertKey(Join(ts, '.')) == ReplaceTails(key)
  {
    hide Join, ReplaceTails, Replace;
    Subjects.JoinReplaced(ts);
    assert Subjects.Slashless(ts);
    Subjects.TailInText(ts);
    NoSlash(ts);
  }

  lemma PlainLast(ts: seq<string>)
    requires ts != [] && forall k :: 0 <= k < |ts| ==> Subjects.Plain(ts[k])
    ensures forall k :: 0 <= k < |ts| ==> '/' !in ts[k] && '/' !in ts[|ts| - 1 := "**"][k]
  {
  }

  lemma StarLast(ts: seq<string>)
    requires |ts| >= 2 && ts[|ts| - 1] == ">"
    ensures var key, us := Join(ts, '/'), ts[|ts| - 1 := "**"];
            |key| >= 2 && key[..|key| - 2] + "/**" == Join(us, '/') && StarTails(us) == StarTails(ts)
  {
    hide Join;
    var us, key := ts[|ts| - 1 := "**"], Join(ts, '/');
    Subjects.JoinLast(ts);
    Subjects.JoinLast(us);
    assert ts[..|ts| - 1] == us[..|us| - 1];
    assert key[..|key| - 2] == Join(ts[..|ts| - 1], '/');
    assert "**" == Starred(">") == Starred("**");
  }

  lemma {:induction false} NoSlash(ts: seq<string>)
    requires forall k :: 0 <= k < |ts| ==> Subjects.Plain(ts[k])
    ensures '/' !in Join(ts, '.')
  {
    if |ts| > 1 { NoSlash(ts[1..]); }
  }

  // ----- the adapter -----

  type Handle = nat

  /** What a caller holds: its handles are overwritten in place on reconnect. */
  class Wrapper {
    var subscriber: Handle
    var queryable: Option<Handle>
    var drainTask: Handle
    var keyExpr: string

    constructor (subscriber: Handle, queryable: Option<Handle>, drainTask: Handle, keyExpr: string)
      ensures this.subscriber == subscriber && this.queryable == queryable
      ensures this.drainTask == drainTask && this.keyExpr == keyExpr
    {
      this.subscriber, this.queryable, this.drainTask, this.keyExpr := subscriber, queryable, drainTask, keyExpr;
    }
  }

  datatype Spec = Spec(
    subscriber: Handle, queryable: Option<Handle>, drainTask: Handle, wrapper: Wrapper,
    callback: nat, subscribeOnly: bool, withSubject: bool, queue: Option<string>, key: string)

  /** How an installation ends; without a queryable the last fate is a success. */
  datatype Fate = Works | SubscriberFails | QueryableFails

  datatype Declaration = Subscriber(key: string) | Queryable(key: string)

  function StoreKey(key: string, withSubject: bool): string {
    if withSubject then key + ":with_subject" else key
  }

  /** Subscriptions to one key expression with and without the subject are stored apart, and so are those of either kind
      to different key expressions. */
  lemma StoreKeysApart(a: string, b: string, withSubject: bool)
    ensures StoreKey(a, withSubject) == StoreKey(b, withSubject) <==> a == b
    ensures StoreKey(a, true) != StoreKey(a, false)
  {
    assert withSubject ==> StoreKey(a, withSubject)[..|a|] == a && StoreKey(b, withSubject)[..|b|] == b;
  }

  predicate Succeeds(subscribeOnly: bool, fate: Fate) {
    fate.Works? || (fate.QueryableFails? && subscribeOnly)
  }

  /** What an installation declares on the session, in order. */
  function Declares(key: string, subscribeOnly: bool, fate: Fate): seq<Declaration> {
    if fate.SubscriberFails? then []
    else if subscribeOnly || fate.QueryableFails? then [Subscriber(key)]
    else [Subscriber(key), Queryable(key)]
  }

  /** The wrapper shows the handles of the spec. */
  ghost predicate Shows(spec: Spec)
    reads spec.wrapper
  {
    && spec.wrapper.subscriber == spec.subscriber && spec.wrapper.queryable == spec.queryable
    && spec.wrapper.drainTask == spec.drainTask && spec.wrapper.keyExpr == spec.key
  }

  /** Two specs ask for the same subscription and share the wrapper. */
  predicate SameRequest(a: Spec, b: Spec) {
    && a.callback == b.callback && a.subscribeOnly == b.subscribeOnly && a.withSubject == b.withSubject
    && a.queue == b.queue && a.key == b.key && a.wrapper == b.wrapper
  }

  /** The table, the declarations on the session and the next free handle, while specs are installed. */
  datatype Replay = Replay(table: map<string, Spec>, declared: seq<Declaration>, next: Handle)

  /** One installation: the handles are new, everything else is taken from the spec. */
  function Installed(r: Replay, s: Spec, fate: Fate): Replay {
    var declared := r.declared + Declares(s.key, s.subscribeOnly, fate);
    if !Succeeds(s.subscribeOnly, fate) then
      r.(declared := declared, next := r.next + |Declares(s.key, s.subscribeOnly, fate)|)
    else
      var drain := if s.subscribeOnly then r.next + 1 else r.next + 2;
      var queryable := if s.subscribeOnly then None else Some(r.next + 1);
      var s' := s.(subscriber := r.next, queryable := queryable, drainTask := drain);
      Replay(r.table[StoreKey(s.key, s.withSubject) := s'], declared, drain + 1)
  }

  function InstallAll(r: Replay, specs: map<string, Spec>, order: seq<string>, fates: seq<Fate>): Replay
    requires |fates| == |order| && forall k :: k in order ==> k in specs
  {
    if order == [] then r
    else
      var n := |order| - 1;
      Installed(InstallAll(r, specs, order[..n], fates[..n]), specs[order[n]], fates[n])
  }

  /** Each spec is stored under its own key, which is a converted one, and no two share a wrapper. */
  predicate Keyed(specs: map<string, Spec>) {
    && (forall k :: k in specs ==>
          StoreKey(specs[k].key, specs[k].withSubject) == k && ConvertKey(specs[k].key) == specs[k].key)
    && (forall j, k :: j in specs && k in specs && j != k ==> specs[j].wrapper != specs[k].wrapper)
  }

  /** Exactly the specs whose installation succeeded are in the table again, under the same keys and with the same
      request, all of them with handles from `first` on. */
  ghost predicate Renewed(r: Replay, specs: map<string, Spec>, order: seq<string>, fates: seq<Fate>, first: Handle)
    requires |fates| == |order| && forall k :: k in order ==> k in specs
  {
    && first <= r.next
    && (forall k :: k in r.table ==> k in order)
    && (forall i :: 0 <= i < |order| ==> (order[i] in r.table <==> Succeeds(specs[order[i]].subscribeOnly, fates[i])))
    && (forall k :: k in r.table ==>
          SameRequest(r.table[k], specs[k]) && NewHandles(r.table[k], first))
  }

  /** The handles are new and each its own; there is a queryable if the request wants more than to subscribe. */
  predicate NewHandles(s: Spec, first: Handle) {
    && first <= s.subscriber < s.drainTask
    && (s.queryable.Some? <==> !s.subscribeOnly)
    && (s.queryable.Some? ==> s.subscriber < s.queryable.value < s.drainTask)
  }

  lemma {:induction false} InstallAllRenews(
      specs: map<string, Spec>, order: seq<string>, fates: seq<Fate>, first: Handle)
    requires Keyed(specs) && NoDup(order) && |fates| == |order| && forall k :: k in order ==> k in specs
    ensures Renewed(InstallAll(Replay(map[], [], first), specs, order, fates), specs, order, fates, first)
    decreases |order|
  {
    hide Renewed, Installed, Keyed, NoDup;
    if order == [] {
      RenewedEmpty(specs, fates, first);
    } else {
      var n := |order| - 1;
      DistinctPrefix(order);
      InstallAllRenews(specs, order[..n], fates[..n], first);
      KeyedAt(specs, order[n]);
      var r := InstallAll(Replay(map[], [], first), specs, order[..n], fates[..n]);
      InstalledTable(r, specs[order[n]], fates[n], order[n]);
      RenewedStep(r, Installed(r, specs[order[n]], fates[n]), specs, order[..n], fates[..n], order[n], fates[n], first);
      assert order == order[..n] + [order[n]] && fates == fates[..n] + [fates[n]];
    }
  }

  lemma DistinctPrefix(order: seq<string>)
    requires NoDup(order) && order != []
    ensures NoDup(order[..|order| - 1]) && order[|order| - 1] !in order[..|order| - 1]
  {
  }

  lemma RenewedEmpty(specs: map<string, Spec>, fates: seq<Fate>, first: Handle)
    requires fates == []
    ensures Renewed(Replay(map[], [], first), specs, [], fates, first)
  {
  }

  lemma RenewedStep(r: Replay, r': Replay, specs: map<string, Spec>, order: seq<string>, fates: seq<Fate>,
                    k: string, fate: Fate, first: Handle)
    requires |fates| == |order| && (forall j :: j in order ==> j in specs) && k in specs && k !in order
    requires Renewed(r, specs, order, fates, first) && r'.next >= r.next
    requires if Succeeds(specs[k].subscribeOnly, fate) then
        && k in r'.table && r'.table == r.table[k := r'.table[k]] && SameRequest(r'.table[k], specs[k])
        && NewHandles(r'.table[k], r.next)
      else r'.table == r.table
    ensures Renewed(r', specs, order + [k], fates + [fate], first)
  {
    hide SameRequest, Succeeds;
  }

  class ZenohAdapter {
    var subscriptions: map<string, Spec>
    var declared: seq<Declaration>     // on the current session
    var cancelled: set<Handle>         // drain tasks cancelled
    var nextHandle: Handle

    constructor ()
      ensures subscriptions == map[] && declared == [] && cancelled == {} && nextHandle == 0
      ensures Keyed(subscriptions)
    {
      subscriptions, declared, cancelled, nextHandle := map[], [], {}, 0;
    }

    /** `_install_subscription`: declare what the subscription needs, then store its spec under the converted key, with
        the wrapper that is given or a new one. */
    method Install(subject: string, callback: nat, queue: Option<string>, subscribeOnly: bool, withSubject: bool,
                   existing: Option<Wrapper>, fate: Fate)
      returns (result: Option<Wrapper>)
      modifies this`subscriptions, this`declared, this`nextHandle, if existing.Some? then {existing.value} else {}
      ensures result.Some? <==> Succeeds(subscribeOnly, fate)
      ensures result.Some? ==> if existing.Some? then result == existing else fresh(result.value)
      ensures result.Some? ==>
        var s := Spec(0, None, 0, result.value, callback, subscribeOnly, withSubject, queue, ConvertKey(subject));
        && Replay(subscriptions, declared, nextHandle) ==
           Installed(Replay(old(subscriptions), old(declared), old(nextHandle)), s, fate)
        && Shows(subscriptions[StoreKey(ConvertKey(subject), withSubject)])
      ensures result.None? ==>
        && subscriptions == old(subscriptions)
        && declared == old(declared) + Declares(ConvertKey(subject), subscribeOnly, fate)
        && nextHandle == old(nextHandle) + |Declares(ConvertKey(subject), subscribeOnly, fate)|
        && (existing.Some? ==> unchanged(existing.value))
    {
      hide ConvertKey, StoreKey;
      var key := ConvertKey(subject);
      var storeKey := StoreKey(key, withSubject);
      if fate.SubscriberFails? { return None; }
      var subscriber := nextHandle;
      nextHandle := nextHandle + 1;
      declared := declared + [Subscriber(key)];
      var queryable := None;
      if !subscribeOnly {
        if fate.QueryableFails? { return None; }
        queryable := Some(nextHandle);
        nextHandle := nextHandle + 1;
        declared := declared + [Queryable(key)];
      }
      var drainTask := nextHandle;
      nextHandle := nextHandle + 1;
      var w;
      if existing.Some? {
        w := existing.value;
        w.subscriber, w.queryable, w.drainTask, w.keyExpr := subscriber, queryable, drainTask, key;
      } else {
        w := new Wrapper(subscriber, queryable, drainTask, key);
      }
      subscriptions := subscriptions[storeKey :=
        Spec(subscriber, queryable, drainTask, w, callback, subscribeOnly, withSubject, queue, key)];
      return Some(w);
    }

    /** `subscribe` and `subscribe_with_subject`. The table stays keyed, because converting the stored key once more
        gives it back. */
    method Subscribe(subject: string, callback: nat, queue: Option<string>, subscribeOnly: bool, withSubject: bool,
                     fate: Fate)
      returns (result: Option<Wrapper>)
      requires Keyed(subscriptions)
      modifies this`subscriptions, this`declared, this`nextHandle
      ensures Keyed(subscriptions)
      ensures result.Some? <==> Succeeds(subscribeOnly, fate)
      ensures var k := StoreKey(ConvertKey(subject), withSubject);
              if result.None? then subscriptions == old(subscriptions)
              else
                && fresh(result.value) && k in subscriptions
                && subscriptions == old(subscriptions)[k := subscriptions[k]]
                && subscriptions[k].wrapper == result.value && Shows(subscriptions[k])
    {
      hide Installed, Keyed, StoreKey, Shows;
      result := Install(subject, callback, queue, subscribeOnly, withSubject, None, fate);
      if result.Some? {
        ConvertKeyIdempotent(subject);
        var key := ConvertKey(subject);
        ghost var s := Spec(0, None, 0, result.value, callback, subscribeOnly, withSubject, queue, key);
        InstalledTable(Replay(old(subscriptions), old(declared), old(nextHandle)), s, fate, StoreKey(key, withSubject));
        StoredKeyed(old(subscriptions), StoreKey(key, withSubject), subscriptions[StoreKey(key, withSubject)]);
      }
    }

    /** `unsubscribe` of a wrapper forgets what is stored under its plain key. */
    method Unsubscribe(w: Wrapper)
      requires Keyed(subscriptions)
      modifies this`subscriptions
      ensures subscriptions == old(subscriptions) - {w.keyExpr} && Keyed(subscriptions)
    {
      subscriptions := subscriptions - {w.keyExpr};
    }

    /** A session opened anew knows no declarations. */
    method OpenSession()
      modifies this`declared
      ensures declared == []
    {
      declared := [];
    }

    /** The installation that replays a spec onto its own wrapper. */
    method Reinstall(spec: Spec, fate: Fate) returns (ok: bool)
      requires ConvertKey(spec.key) == spec.key
      modifies this`subscriptions, this`declared, this`nextHandle, spec.wrapper
      ensures ok <==> Succeeds(spec.subscribeOnly, fate)
      ensures Replay(subscriptions, declared, nextHandle) ==
              Installed(Replay(old(subscriptions), old(declared), old(nextHandle)), spec, fate)
      ensures if ok then Shows(subscriptions[StoreKey(spec.key, spec.withSubject)]) else unchanged(spec.wrapper)
    {
      hide ConvertKey, StoreKey, Shows;
      var w := Install(spec.key, spec.callback, spec.queue, spec.subscribeOnly, spec.withSubject, Some(spec.wrapper),
                       fate);
      return w.Some?;
    }

    /** The body of the loop of `_redeclare_all`, for the spec saved under a key that is not in the table yet. */
    method ReplayOne(specs: map<string, Spec>, k: string, fate: Fate)
      requires Keyed(specs) && k in specs && k !in subscriptions
      requires forall j :: j in subscriptions ==>
        j in specs && subscriptions[j].wrapper == specs[j].wrapper && Shows(subscriptions[j])
      modifies this, specs[k].wrapper
      ensures Replay(subscriptions, declared, nextHandle) ==
              Installed(Replay(old(subscriptions), old(declared), old(nextHandle)), specs[k], fate)
      ensures forall j :: j in subscriptions <==> j in old(subscriptions) || (j == k && k in subscriptions)
      ensures forall j :: j in subscriptions ==>
        j in specs && subscriptions[j].wrapper == specs[j].wrapper && Shows(subscriptions[j])
      ensures k !in subscriptions ==> unchanged(specs[k].wrapper)
      ensures cancelled == old(cancelled) + {specs[k].drainTask}
    {
      hide Installed, ConvertKey, StoreKey, Keyed, Shows, SameRequest;
      KeyedAt(specs, k);
      cancelled := cancelled + {specs[k].drainTask};
      ghost var before := Replay(subscriptions, declared, nextHandle);
      var ok := Reinstall(specs[k], fate);
      InstalledTable(before, specs[k], fate, k);
    }

    /** The loop of `_redeclare_all` over the saved specs, the table having been cleared. */
    method ReplayAll(specs: map<string, Spec>, order: seq<string>, fates: seq<Fate>)
      requires Keyed(specs) && subscriptions == map[]
      requires |fates| == |order| && NoDup(order) && forall k :: k in order <==> k in specs
      modifies this, set k | k in specs :: specs[k].wrapper
      ensures Replay(subscriptions, declared, nextHandle) ==
              InstallAll(Replay(map[], old(declared), old(nextHandle)), specs, order, fates)
      ensures forall k :: k in subscriptions ==> Shows(subscriptions[k])
      ensures forall k :: k in specs && k !in subscriptions ==> unchanged(specs[k].wrapper)
      ensures forall k :: k in specs ==> specs[k].drainTask in cancelled
    {
      hide Installed, InstallAll, ConvertKey, StoreKey, NoDup, Keyed, Shows, SameRequest, Succeeds, NewHandles;
      InstallAllNone(Replay(map[], declared, nextHandle), specs);
      ghost var start := Replay(map[], declared, nextHandle);
      for i := 0 to |order|
        invariant Replay(subscriptions, declared, nextHandle) == InstallAll(start, specs, order[..i], fates[..i])
        invariant forall k :: k in subscriptions ==> k in order[..i]
        invariant forall k :: k in subscriptions ==>
          k in specs && subscriptions[k].wrapper == specs[k].wrapper && Shows(subscriptions[k])
        invariant forall k :: k in specs && k !in subscriptions ==> unchanged(specs[k].wrapper)
        invariant forall j :: 0 <= j < i ==> specs[order[j]].drainTask in cancelled
      {
        Extended(order, fates, i);
        InstallAllNext(start, specs, order, fates, i);
        KeyedAt(specs, order[i]);
        ReplayOne(specs, order[i], fates[i]);
      }
      assert order[..|order|] == order && fates[..|fates|] == fates;
    }

    /** `_redeclare_all` on a fresh session. `order` lists the table's keys in order, `fates` how each installation
        ends. What is left are the specs whose installation succeeded, under their old keys and shown by the wrappers
        that callers hold; the wrapper of a spec that was lost keeps its dead handles. */
    method RedeclareAll(order: seq<string>, fates: seq<Fate>)
      requires Keyed(subscriptions) && declared == []
      requires |fates| == |order| && NoDup(order) && forall k :: k in order <==> k in subscriptions
      modifies this, set k | k in subscriptions :: subscriptions[k].wrapper
      ensures Keyed(subscriptions)
      ensures forall i :: 0 <= i < |order| ==>
        (order[i] in subscriptions <==> Succeeds(old(subscriptions)[order[i]].subscribeOnly, fates[i]))
      ensures forall k :: k in subscriptions ==>
        && k in old(subscriptions) && SameRequest(subscriptions[k], old(subscriptions)[k]) && Shows(subscriptions[k])
        && NewHandles(subscriptions[k], old(nextHandle))
      ensures forall k :: k in old(subscriptions) && k !in subscriptions ==> unchanged(old(subscriptions)[k].wrapper)
      ensures declared == InstallAll(Replay(map[], [], old(nextHandle)), old(subscriptions), order, fates).declared
      ensures forall k :: k in old(subscriptions) ==> old(subscriptions)[k].drainTask in cancelled
    {
      hide InstallAll, Renewed, Keyed, NoDup, Shows, SameRequest, Succeeds, NewHandles;
      var specs := subscriptions;
      subscriptions := map[];
      ReplayAll(specs, order, fates);
      InstallAllRenews(specs, order, fates, old(nextHandle));
      RenewedFacts(Replay(subscriptions, declared, nextHandle), specs, order, fates, old(nextHandle));
    }
  }

  lemma StoredKeyed(specs: map<string, Spec>, k: string, s: Spec)
    requires Keyed(specs) && StoreKey(s.key, s.withSubject) == k && ConvertKey(s.key) == s.key
    requires forall j :: j in specs ==> specs[j].wrapper != s.wrapper
    ensures Keyed(specs[k := s])
  {
    hide StoreKey, ConvertKey;
  }

  // Where replaying stands before and after the spec at `i`.
  lemma Extended(order: seq<string>, fates: seq<Fate>, i: nat)
    requires i < |order| == |fates| && NoDup(order)
    ensures order[..i + 1] == order[..i] + [order[i]] && order[i] !in order[..i]
  {
  }

  lemma InstallAllNone(r: Replay, specs: map<string, Spec>)
    ensures InstallAll(r, specs, [], []) == r
  {
  }

  lemma InstallAllNext(r: Replay, specs: map<string, Spec>, order: seq<string>, fates: seq<Fate>, i: nat)
    requires i < |order| == |fates| && forall k :: k in order ==> k in specs
    ensures InstallAll(r, specs, order[..i + 1], fates[..i + 1]) ==
            Installed(InstallAll(r, specs, order[..i], fates[..i]), specs[order[i]], fates[i])
  {
    hide Installed;
    assert order[..i + 1][..i] == order[..i] && fates[..i + 1][..i] == fates[..i];
  }

  lemma KeyedAt(specs: map<string, Spec>, k: string)
    requires Keyed(specs) && k in specs
    ensures StoreKey(specs[k].key, specs[k].withSubject) == k && ConvertKey(specs[k].key) == specs[k].key
    ensures forall j :: j in specs && j != k ==> specs[j].wrapper != specs[k].wrapper
  {
    hide StoreKey, ConvertKey;
  }

  lemma InstalledTable(r: Replay, s: Spec, fate: Fate, k: string)
    requires StoreKey(s.key, s.withSubject) == k
    ensures var r' := Installed(r, s, fate);
            && r'.next >= r.next
            && if Succeeds(s.subscribeOnly, fate) then
              && k in r'.table && r'.table == r.table[k := r'.table[k]] && SameRequest(r'.table[k], s)
              && r'.table[k].wrapper == s.wrapper && NewHandles(r'.table[k], r.next)
            else
              r'.table == r.table
  {
  }

  lemma RenewedFacts(r: Replay, specs: map<string, Spec>, order: seq<string>, fates: seq<Fate>, first: Handle)
    requires |fates| == |order| && (forall k :: k in order ==> k in specs) && Keyed(specs)
    requires Renewed(r, specs, order, fates, first)
    ensures Keyed(r.table)
    ensures forall i :: 0 <= i < |order| ==>
      (order[i] in r.table <==> Succeeds(specs[order[i]].subscribeOnly, fates[i]))
    ensures forall k :: k in r.table ==> k in specs && SameRequest(r.table[k], specs[k])
    ensures forall k :: k in r.table ==> NewHandles(r.table[k], first)
  {
  }

  // ----- declarations -----

  /** The number of specs for a key whose subscriber gets declared. */
  function Subscribing(specs: map<string, Spec>, order: seq<string>, fates: seq<Fate>, key: string): nat
    requires |fates| == |order| && forall k :: k in order ==> k in specs
  {
    if order == [] then 0
    else
      var n := |order| - 1;
      Subscribing(specs, order[..n], fates[..n], key) +
      (if specs[order[n]].key == key && !fates[n].SubscriberFails? then 1 else 0)
  }

  /** The number of specs for a key whose queryable gets declared. */
  function Answering(specs: map<string, Spec>, order: seq<string>, fates: seq<Fate>, key: string): nat
    requires |fates| == |order| && forall k :: k in order ==> k in specs
  {
    if order == [] then 0
    else
      var n := |order| - 1;
      Answering(specs, order[..n], fates[..n], key) +
      (if specs[order[n]].key == key && !specs[order[n]].subscribeOnly && fates[n].Works? then 1 else 0)
  }

  /** The session sees one subscriber declaration for each spec replayed whose subscriber does not fail, one queryable
      declaration for each that wants one and fails in neither, and none else. */
  lemma {:induction false} DeclaredOncePerSpec(
      r: Replay, specs: map<string, Spec>, order: seq<string>, fates: seq<Fate>, key: string)
    requires |fates| == |order| && forall k :: k in order ==> k in specs
    ensures multiset(InstallAll(r, specs, order, fates).declared)[Subscriber(key)] ==
            multiset(r.declared)[Subscriber(key)] + Subscribing(specs, order, fates, key)
    ensures multiset(InstallAll(r, specs, order, fates).declared)[Queryable(key)] ==
            multiset(r.declared)[Queryable(key)] + Answering(specs, order, fates, key)
    decreases |order|
  {
    hide Declares;
    if order == [] {
    } else {
      var n := |order| - 1;
      var s := specs[order[n]];
      DeclaredOncePerSpec(r, specs, order[..n], fates[..n], key);
      CountDeclared(s.key, s.subscribeOnly, fates[n], key);
      var before := InstallAll(r, specs, order[..n], fates[..n]).declared;
      assert multiset(before + Declares(s.key, s.subscribeOnly, fates[n])) ==
             multiset(before) + multiset(Declares(s.key, s.subscribeOnly, fates[n]));
    }
  }

  lemma CountDeclared(own: string, subscribeOnly: bool, fate: Fate, key: string)
    ensures var ds := multiset(Declares(own, subscribeOnly, fate));
            && ds[Subscriber(key)] == (if own == key && !fate.SubscriberFails? then 1 else 0)
            && ds[Queryable(key)] == (if own == key && !subscribeOnly && fate.Works? then 1 else 0)
  {
  }
}
