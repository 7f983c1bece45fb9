/** The buffered inbox: a list that the messaging callback appends to while the reader takes a snapshot and cuts it
    off. The two share list objects, and which of them they share decides what a read keeps. */
module Inbox {
  import opened Sequences
  import opened Text

  /** The fields of the payload that can name an event, and all the rest of it. */
  datatype Message = Message(subject: string, eventName: Option<string>, method_: Option<string>, rest: string)

  /** A message that the callback of an inbox receives. */
  datatype Arrival = Arrival(name: string, message: Message)

  const LIMIT: nat := 1000
  const KEPT: nat := 500

  /** A list object. */
  class MessageList {
    var items: seq<Message>

    constructor (items: seq<Message>)
      ensures this.items == items
    {
      this.items := items;
    }
  }

  // ----- what the steps do to the contents -----

  function Capped(q: seq<Message>): seq<Message> {
    if |q| > LIMIT then q[|q| - KEPT..] else q
  }

  function Received(q: seq<Message>, arrivals: seq<Message>): seq<Message>
    decreases |arrivals|
  {
    if arrivals == [] then q
    else
      var n := |arrivals| - 1;
      Capped(Received(q, arrivals[..n]) + [arrivals[n]])
  }

  /** A read between its snapshot and its cut: whether the reader's list is the inbox itself, its contents, and the
      contents of the inbox. */
  datatype Window = Window(shared: bool, buf: seq<Message>, inbox: seq<Message>)

  function Opened(q: seq<Message>): Window {
    Window(q != [], q, q)
  }

  function Arrived(w: Window, m: Message): Window {
    if !w.shared then w.(inbox := Capped(w.inbox + [m]))
    else Window(|w.buf| < LIMIT, w.buf + [m], Capped(w.buf + [m]))
  }

  function AllArrived(w: Window, arrivals: seq<Message>): (w': Window)
    ensures |w'.buf| >= |w.buf|
    decreases |arrivals|
  {
    if arrivals == [] then w
    else
      var n := |arrivals| - 1;
      Arrived(AllArrived(w, arrivals[..n]), arrivals[n])
  }

  function AfterRead(q: seq<Message>, during: seq<Message>): seq<Message> {
    AllArrived(Opened(q), during).buf[|q|..]
  }

  // ----- all inboxes -----

  type Contents = map<string, seq<Message>>

  /** The messages that arrive for one inbox. */
  function For(name: string, arrivals: seq<Arrival>): seq<Message> {
    if arrivals == [] then []
    else
      var n := |arrivals| - 1;
      For(name, arrivals[..n]) + (if arrivals[n].name == name then [arrivals[n].message] else [])
  }

  /** What a reader finds in an inbox, which may be missing. */
  function Found(c: Contents, name: string): seq<Message> {
    if name in c then c[name] else []
  }

  /** One inbox is read while messages arrive for it and for others. */
  function OneRead(c: Contents, name: string, during: seq<Arrival>): Contents {
    (map other | other in c :: Received(c[other], For(other, during)))
      [name := AfterRead(Found(c, name), For(name, during))]
  }

  /** The inboxes are read one after the other; `found` is what the reads find, in order. */
  function AllRead(c: Contents, names: seq<string>, during: seq<seq<Arrival>>): (r: (Contents, seq<Message>))
    requires |names| == |during|
    decreases |names|
  {
    if names == [] then (c, [])
    else
      var n := |names| - 1;
      var (c', found) := AllRead(c, names[..n], during[..n]);
      (OneRead(c', names[n], during[n]), found + Found(c', names[n]))
  }

  // ----- what a reader wants -----

  function AfterEvent(s: string): string {
    if StartsWith(s, "event/") then s[6..] else s
  }

  function EventOfSubject(subject: string): Option<string> {
    if |subject| < 7 then None
    else if subject[..7] == ".event." then if |subject| == 7 then None else Some(Split(subject[7..], '.')[0])
    else EventOfSubject(subject[1..])
  }

  /** `_message_event_name`: the payload's event name, else its method, else the subject tells. */
  function EventName(m: Message): Option<string> {
    if m.eventName.Some? && m.eventName.value != "" then Some(AfterEvent(m.eventName.value))
    else if m.method_.Some? && m.method_.value != "" then Some(AfterEvent(m.method_.value))
    else EventOfSubject(m.subject)
  }

  predicate Passes(m: Message, wanted: Option<set<string>>) {
    wanted.Some? ==> EventName(m).Some? && EventName(m).value in wanted.value
  }

  function Passing(ms: seq<Message>, wanted: Option<set<string>>): seq<Message> {
    if ms == [] then []
    else
      var n := |ms| - 1;
      Passing(ms[..n], wanted) + (if Passes(ms[n], wanted) then [ms[n]] else [])
  }

  /** `out[:limit]`: a negative limit counts from the end. */
  function Limited(out: seq<Message>, limit: Option<int>): seq<Message> {
    if limit.None? then out
    else
      var end := if limit.value < 0 then |out| + limit.value else limit.value;
      out[..if end < 0 then 0 else if end > |out| then |out| else end]
  }

  /** A limit cuts from the end: to as many messages, or by as many if it is negative. */
  lemma LimitCutsTheEnd(out: seq<Message>, limit: Option<int>)
    ensures var r := Limited(out, limit);
            && r <= out
            && (limit.None? ==> r == out)
            && (limit.Some? && limit.value >= 0 ==> |r| == |out| || |r| == limit.value < |out|)
            && (limit.Some? && limit.value < 0 ==>
                  if |out| + limit.value > 0 then |r| - |out| == limit.value else r == [])
  {
  }

  lemma {:induction false} PassingJoin(a: seq<Message>, b: seq<Message>, wanted: Option<set<string>>)
    ensures Passing(a + b, wanted) == Passing(a, wanted) + Passing(b, wanted)
    decreases |b|
  {
    hide Passes;
    if b == [] {
      assert a + b == a;
    } else {
      var n := |b| - 1;
      PassingJoin(a, b[..n], wanted);
      assert (a + b)[..|a| + n] == a + b[..n];
    }
  }

  /** The name that a payload field gives to an event, with or without `event/` before it. */
  predicate Names(field: Option<string>, name: string) {
    field.Some? && field.value != "" &&
    if |field.value| >= 6 && field.value[..6] == "event/" then field.value == "event/" + name else field.value == name
  }

  predicate Blank(field: Option<string>) {
    field.None? || field.value == ""
  }

  predicate MarkAt(subject: string, k: nat) {
    k + 7 <= |subject| && subject[k..k + 7] == ".event."
  }

  /** The first `.event.` of a subject stands at position `k`, and the token after it is the name. */
  predicate TellsEvent(subject: string, k: nat, name: string) {
    && MarkAt(subject, k) && (forall i: nat :: i < k ==> !MarkAt(subject, i))
    && k + 7 < |subject| && name == Split(subject[k + 7..], '.')[0]
  }

  lemma MarkLater(subject: string, k: nat)
    requires subject != ""
    ensures MarkAt(subject[1..], k) <==> MarkAt(subject, k + 1)
  {
    if k + 8 <= |subject| { assert subject[1..][k..k + 7] == subject[k + 1..k + 8]; }
  }

  lemma TellsLater(subject: string, k: nat, name: string)
    requires subject != "" && !MarkAt(subject, 0)
    ensures TellsEvent(subject, k + 1, name) <==> TellsEvent(subject[1..], k, name)
  {
    hide MarkAt, Split;
    var rest := subject[1..];
    forall i: nat ensures MarkAt(rest, i) <==> MarkAt(subject, i + 1) { MarkLater(subject, i); }
    if TellsEvent(rest, k, name) {
      forall i: nat | i < k + 1 ensures !MarkAt(subject, i) { if i > 0 { assert !MarkAt(rest, i - 1); } }
    }
    if k + 8 <= |subject| { assert rest[k + 7..] == subject[k + 8..]; }
  }

  lemma {:induction false} EventInSubject(subject: string, name: string)
    ensures EventOfSubject(subject) == Some(name) <==> exists k: nat :: TellsEvent(subject, k, name)
    decreases |subject|
  {
    hide TellsEvent, Split;
    if |subject| < 7 {
      forall k: nat ensures !TellsEvent(subject, k, name) { TooShort(subject, k, name); }
    } else {
      assert subject[0..7] == subject[..7];
      if MarkAt(subject, 0) {
        OnlyFirst(subject, name);
      } else {
        EventInSubject(subject[1..], name);
        forall k: nat ensures TellsEvent(subject, k + 1, name) <==> TellsEvent(subject[1..], k, name) {
          TellsLater(subject, k, name);
        }
        assert !TellsEvent(subject, 0, name) by { NotThere(subject, name); }
        if k: nat :| TellsEvent(subject, k, name) { assert k != 0 && TellsEvent(subject[1..], k - 1, name); }
      }
    }
  }

  lemma TooShort(subject: string, k: nat, name: string)
    requires |subject| < 7
    ensures !TellsEvent(subject, k, name)
  {
  }

  lemma NotThere(subject: string, name: string)
    requires !MarkAt(subject, 0)
    ensures !TellsEvent(subject, 0, name)
  {
  }

  lemma OnlyFirst(subject: string, name: string)
    requires MarkAt(subject, 0)
    ensures (exists k: nat :: TellsEvent(subject, k, name)) <==>
            |subject| > 7 && name == Split(subject[7..], '.')[0]
  {
    hide MarkAt, Split;
    if |subject| > 7 && name == Split(subject[7..], '.')[0] { assert TellsEvent(subject, 0, name); }
  }

  /** The event that a message is of: the payload's event name tells, or else its method, or else its subject. */
  ghost predicate IsOf(m: Message, name: string) {
    if !Blank(m.eventName) then Names(m.eventName, name)
    else if !Blank(m.method_) then Names(m.method_, name)
    else exists k: nat :: TellsEvent(m.subject, k, name)
  }

  lemma EventNameMeans(m: Message, name: string)
    ensures EventName(m) == Some(name) <==> IsOf(m, name)
  {
    hide EventOfSubject, TellsEvent;
    EventInSubject(m.subject, name);
    AfterEventMeans(m.eventName, name);
    AfterEventMeans(m.method_, name);
  }

  lemma AfterEventMeans(field: Option<string>, name: string)
    ensures field.Some? && field.value != "" ==> (AfterEvent(field.value) == name <==> Names(field, name))
  {
    if field.Some? {
      var s := field.value;
      if |s| >= 6 { assert s == s[..6] + s[6..]; }
      assert ("event/" + name)[6..] == name && ("event/" + name)[..6] == "event/";
    }
  }

  /** A read returns, in order, exactly the messages of the events that are wanted, or all if none are named. */
  lemma {:induction false} PassingMeans(ms: seq<Message>, more: seq<Message>, wanted: Option<set<string>>)
    ensures Passing(ms + more, wanted) == Passing(ms, wanted) + Passing(more, wanted)
    ensures |ms| == 1 ==>
              Passing(ms, wanted) ==
              if wanted.None? || exists name :: name in wanted.value && IsOf(ms[0], name) then ms else []
  {
    hide EventName, IsOf;
    PassingJoin(ms, more, wanted);
    if |ms| == 1 {
      forall name ensures EventName(ms[0]) == Some(name) <==> IsOf(ms[0], name) { EventNameMeans(ms[0], name); }
      assert ms[..0] == [] && ms == [ms[0]];
    }
  }

  // ----- the shared inbox -----

  class Connection {
    var inbox: map<string, MessageList>

    /** No list serves two inboxes. */
    ghost predicate Valid()
      reads this
    {
      forall a, b :: a in inbox && b in inbox && a != b ==> inbox[a] != inbox[b]
    }

    ghost function View(): (c: Contents)
      reads this, set n | n in inbox :: inbox[n]
    {
      map n | n in inbox :: inbox[n].items
    }

    constructor ()
      ensures Valid() && inbox == map[]
    {
      inbox := map[];
    }

    /** `subscribe_buffered` starts an inbox. */
    method Subscribe(name: string)
      requires Valid()
      modifies this
      ensures Valid() && name in inbox && View() == old(View())[name := []] && fresh(inbox[name])
    {
      var list := new MessageList([]);
      inbox := inbox[name := list];
    }

    /** The messaging callback: append to the list, and put a shorter list in its place when it is too long. */
    method OnMessage(name: string, m: Message)
      requires Valid() && name in inbox
      modifies this, inbox[name]
      ensures Valid() && inbox.Keys == old(inbox.Keys)
      ensures old(inbox[name]).items == old(inbox[name].items) + [m]
      ensures if |old(inbox[name].items)| < LIMIT then inbox[name] == old(inbox[name]) else fresh(inbox[name])
      ensures inbox[name].items == Capped(old(inbox[name].items) + [m])
      ensures forall other :: other in inbox && other != name ==> inbox[other] == old(inbox[other])
    {
      inbox[name].items := inbox[name].items + [m];
      if |inbox[name].items| > LIMIT {
        var tail := new MessageList(inbox[name].items[|inbox[name].items| - KEPT..]);
        inbox := inbox[name := tail];
      }
    }

    /** A reader has found `out` in an inbox and holds `buf`; since then `got` has arrived. */
    ghost predicate Reading(name: string, buf: MessageList, out: seq<Message>, before: Contents, got: seq<Arrival>)
      reads this, buf, set n | n in inbox :: inbox[n]
    {
      && inbox.Keys == before.Keys
      && (if name in inbox then
            Window(inbox[name] == buf, buf.items, inbox[name].items) == AllArrived(Opened(out), For(name, got))
          else buf.items == [] && For(name, got) == [])
      && forall o :: o in inbox && o != name ==> inbox[o] != buf && inbox[o].items == Received(before[o], For(o, got))
    }

    /** The snapshot: an inbox that is missing or empty is replaced, for the reader only, by a new empty list. */
    method Snapshot(name: string) returns (buf: MessageList, n: nat, out: seq<Message>)
      requires Valid()
      ensures n == |buf.items| && out == buf.items == Found(View(), name)
      ensures if out != [] then name in inbox && buf == inbox[name] else fresh(buf)
      ensures Reading(name, buf, out, View(), [])
    {
      if name in inbox && inbox[name].items != [] {
        buf := inbox[name];
      } else {
        buf := new MessageList([]);
      }
      n := |buf.items|;
      out := buf.items[..n];
      NothingYet(name, View(), out);
    }

    /** The cut: the rest of the reader's list becomes the inbox. */
    method Cut(name: string, buf: MessageList, n: nat, ghost out: seq<Message>, ghost before: Contents,
               ghost got: seq<Arrival>)
      requires Valid() && Reading(name, buf, out, before, got) && n == |out| && out == Found(before, name)
      modifies this
      ensures Valid() && inbox.Keys == old(inbox.Keys) + {name} && fresh(inbox[name])
      ensures n <= |buf.items| && inbox[name].items == buf.items[n..]
      ensures View() == OneRead(before, name, got)
      ensures forall other :: other in old(inbox) && other != name ==> inbox[other] == old(inbox[other])
    {
      hide AllArrived, Received, For, Opened;
      NoMoreThan(name, out, got);
      assert n <= |buf.items| && buf.items[n..] == AfterRead(out, For(name, got));
      hide AfterRead, OneRead, Found;
      var rest := new MessageList(buf.items[n..]);
      inbox := inbox[name := rest];
      OneReadIs(View(), before, name, got);
    }

    /** The callback of some inbox runs while a reader is between snapshot and cut. */
    method Interrupt(a: Arrival, ghost name: string, ghost buf: MessageList, ghost out: seq<Message>,
                     ghost before: Contents, ghost got: seq<Arrival>)
      requires Valid() && a.name in inbox && Reading(name, buf, out, before, got)
      modifies this, inbox[a.name]
      ensures Valid() && Reading(name, buf, out, before, got + [a])
      ensures inbox.Keys == old(inbox.Keys) && forall n :: n in inbox ==> inbox[n] == old(inbox[n]) || fresh(inbox[n])
    {
      hide Capped, AllArrived, Received, For, Opened;
      Arrives(name, out, got, a);
      forall o | o in before { MoreFor(o, before[o], got, a); }
      MoreFor(name, [], got, a);
      OnMessage(a.name, a.message);
    }

    /** One inbox in `Subscription.read`, while messages arrive for it and for others between the snapshot and the cut.
        The read finds what was there. */
    method Read(name: string, during: seq<Arrival>) returns (out: seq<Message>)
      requires Valid() && forall a :: a in during ==> a.name in inbox
      modifies this, set n | n in inbox :: inbox[n]
      ensures Valid() && out == Found(old(View()), name) && View() == OneRead(old(View()), name, during)
      ensures inbox.Keys == old(inbox.Keys) + {name}
      ensures forall n :: n in inbox ==> (n in old(inbox) && inbox[n] == old(inbox[n])) || fresh(inbox[n])
    {
      hide Reading, OneRead, Found;
      var buf, n;
      ghost var before := View();
      buf, n, out := Snapshot(name);
      for i := 0 to |during|
        invariant Valid() && inbox.Keys == old(inbox.Keys)
        invariant forall o :: o in inbox ==> inbox[o] == old(inbox[o]) || fresh(inbox[o])
        invariant Reading(name, buf, out, before, during[..i])
      {
        assert during[..i + 1] == during[..i] + [during[i]];
        Interrupt(during[i], name, buf, out, before, during[..i]);
      }
      assert during[..|during|] == during;
      Cut(name, buf, n, out, before, during);
    }
  }

  lemma OneReadIs(c: Contents, before: Contents, name: string, got: seq<Arrival>)
    requires c.Keys == before.Keys + {name} && c[name] == AfterRead(Found(before, name), For(name, got))
    requires forall o :: o in before && o != name ==> c[o] == Received(before[o], For(o, got))
    ensures c == OneRead(before, name, got)
  {
    hide AfterRead, Found, Received, For;
  }

  lemma NothingYet(name: string, before: Contents, out: seq<Message>)
    ensures For(name, []) == [] && AllArrived(Opened(out), []) == Opened(out) == Window(out != [], out, out)
    ensures forall o :: o in before ==> For(o, []) == [] && Received(before[o], []) == before[o]
  {
  }

  lemma NoMoreThan(name: string, out: seq<Message>, during: seq<Arrival>)
    ensures |AllArrived(Opened(out), For(name, during)).buf| >= |out|
    ensures AfterRead(out, For(name, during)) == AllArrived(Opened(out), For(name, during)).buf[|out|..]
    ensures AfterRead([], []) == []
  {
  }

  lemma MoreFor(o: string, q: seq<Message>, got: seq<Arrival>, a: Arrival)
    ensures For(o, got + [a]) == if a.name == o then For(o, got) + [a.message] else For(o, got)
    ensures Received(q, For(o, got + [a])) ==
            if a.name == o then Capped(Received(q, For(o, got)) + [a.message]) else Received(q, For(o, got))
  {
    hide Capped;
    assert (got + [a])[..|got|] == got && For(o, got) + [] == For(o, got);
    assert (For(o, got) + [a.message])[..|For(o, got)|] == For(o, got);
  }

  /** One more arrival for the inbox being read moves the window. */
  lemma Arrives(name: string, out: seq<Message>, got: seq<Arrival>, a: Arrival)
    ensures AllArrived(Opened(out), For(name, got + [a])) ==
            var w := AllArrived(Opened(out), For(name, got)); if a.name == name then Arrived(w, a.message) else w
  {
    hide Arrived, Opened;
    assert (got + [a])[..|got|] == got && For(name, got) + [] == For(name, got);
    assert (For(name, got) + [a.message])[..|For(name, got)|] == For(name, got);
  }

  class Subscription {
    const conn: Connection
    const names: seq<string>
    const wanted: Option<set<string>>
    var closed: bool

    constructor (conn: Connection, names: seq<string>, wanted: Option<set<string>>)
      ensures this.conn == conn && this.names == names && this.wanted == wanted && !closed
    {
      this.conn, this.names, this.wanted, closed := conn, names, wanted, false;
    }

    /** `Subscription.read`: the inboxes one after the other, with messages arriving during each; those whose event is
        wanted, up to a limit. What is not wanted or is beyond the limit is gone. */
    method Read(limit: Option<int>, during: seq<seq<Arrival>>) returns (out: seq<Message>)
      requires conn.Valid() && |during| == |names|
      requires forall i, a :: 0 <= i < |during| && a in during[i] ==> a.name in conn.inbox
      modifies conn, set n | n in conn.inbox :: conn.inbox[n]
      ensures conn.Valid()
      ensures if closed then out == [] && conn.View() == old(conn.View())
              else
                var (left, found) := AllRead(old(conn.View()), names, during);
                conn.View() == left && out == Limited(Passing(found, wanted), limit)
    {
      hide AllRead, OneRead, Passing, Passes, Found;
      if closed { return []; }
      ghost var c, found := conn.View(), [];
      NoneRead(c, wanted);
      assert names[..0] == [] && during[..0] == [];
      out := [];
      for i := 0 to |names|
        invariant conn.Valid() && old(conn.inbox.Keys) <= conn.inbox.Keys
        invariant forall n :: n in conn.inbox ==>
          (n in old(conn.inbox) && conn.inbox[n] == old(conn.inbox[n])) || fresh(conn.inbox[n])
        invariant conn.View() == c && out == Passing(found, wanted)
        invariant AllRead(old(conn.View()), names[..i], during[..i]) == (c, found)
      {
        NextRead(old(conn.View()), names, during, i);
        var items := conn.Read(names[i], during[i]);
        PassingJoin(found, items, wanted);
        c, found := conn.View(), found + items;
        var kept := Keep(items);
        out := out + kept;
      }
      assert names[..|names|] == names && during[..|during|] == during;
      out := Limited(out, limit);
    }

    /** The loop of `read` over the messages of one inbox. */
    method Keep(found: seq<Message>) returns (kept: seq<Message>)
      ensures kept == Passing(found, wanted)
    {
      kept := [];
      for i := 0 to |found|
        invariant kept == Passing(found[..i], wanted)
      {
        assert found[..i + 1][..i] == found[..i];
        if wanted.Some? {
          var name := EventName(found[i]);
          if name.None? || name.value !in wanted.value { continue; }
        }
        kept := kept + [found[i]];
      }
      assert found[..|found|] == found;
    }
  }

  lemma NoneRead(c: Contents, wanted: Option<set<string>>)
    ensures AllRead(c, [], []) == (c, []) && Passing([], wanted) == []
  {
  }

  lemma NextRead(c: Contents, names: seq<string>, during: seq<seq<Arrival>>, i: nat)
    requires i < |names| == |during|
    ensures var (c', found) := AllRead(c, names[..i], during[..i]);
            AllRead(c, names[..i + 1], during[..i + 1]) ==
            (OneRead(c', names[i], during[i]), found + Found(c', names[i]))
  {
    hide OneRead;
    assert names[..i + 1][..i] == names[..i] && during[..i + 1][..i] == during[..i];
  }

  // ----- what a read of many inboxes does to each -----

  /** The messages that arrive for one inbox while others are read. */
  function ForAll(name: string, during: seq<seq<Arrival>>): seq<Message> {
    if during == [] then []
    else
      var n := |during| - 1;
      ForAll(name, during[..n]) + For(name, during[n])
  }

  lemma {:induction false} ReceivedJoin(q: seq<Message>, a: seq<Message>, b: seq<Message>)
    ensures Received(q, a + b) == Received(Received(q, a), b)
    decreases |b|
  {
    hide Capped;
    if b == [] {
      assert a + b == a;
    } else {
      var n := |b| - 1;
      ReceivedJoin(q, a, b[..n]);
      assert (a + b)[..|a| + n] == a + b[..n];
    }
  }

  lemma {:induction false} OnlyReceives(c: Contents, names: seq<string>, during: seq<seq<Arrival>>, name: string)
    requires |names| == |during| && name in c && name !in names
    ensures var left := AllRead(c, names, during).0;
            name in left && left[name] == Received(c[name], ForAll(name, during))
    decreases |names|
  {
    hide Received, AfterRead, Found;
    if names == [] {
      NothingReceived(c[name]);
    } else {
      var n := |names| - 1;
      assert name !in names[..n] && name != names[n];
      OnlyReceives(c, names[..n], during[..n], name);
      ReceivedJoin(c[name], ForAll(name, during[..n]), For(name, during[n]));
    }
  }

  lemma NothingReceived(q: seq<Message>)
    ensures Received(q, []) == q
  {
  }

  /** To each of its inboxes a read is one round: what arrives before its turn, the read itself with what arrives during
      it, and what arrives afterwards. */
  lemma {:induction false} EachInboxIsReadOnce(c: Contents, names: seq<string>, during: seq<seq<Arrival>>, k: nat)
    requires |names| == |during| && NoDup(names) && k < |names| && names[k] in c
    ensures var name := names[k];
            var q := Received(c[name], ForAll(name, during[..k]));
            && AllRead(c, names[..k + 1], during[..k + 1]).1 == AllRead(c, names[..k], during[..k]).1 + q
            && var left := AllRead(c, names, during).0;
               name in left &&
               left[name] == Received(AfterRead(q, For(name, during[k])), ForAll(name, during[k + 1..]))
    decreases |names|
  {
    hide Received, AfterRead, OneRead, NoDup, AllRead, For;
    var n, name := |names| - 1, names[k];
    Earlier(names, k);
    OnlyReceives(c, names[..k], during[..k], name);
    NextRead(c, names, during, k);
    var q := Received(c[name], ForAll(name, during[..k]));
    if k == n {
      assert names[..n + 1] == names && during[..n + 1] == during && during[k + 1..] == [];
      assert ForAll(name, []) == [];
      NothingReceived(AfterRead(q, For(name, during[k])));
      ReadHere(AllRead(c, names[..k], during[..k]).0, name, during[k]);
    } else {
      Earlier(names, n);
      Shorter(names, k);
      Shorter(during, k);
      EachInboxIsReadOnce(c, names[..n], during[..n], k);
      ForAllNext(name, during[k + 1..]);
      ReceivedJoin(AfterRead(q, For(name, during[k])), ForAll(name, during[..n][k + 1..]), For(name, during[n]));
      NextRead(c, names, during, n);
      ReadElsewhere(AllRead(c, names[..n], during[..n]).0, names[n], during[n], name);
    }
  }

  lemma Shorter<T>(s: seq<T>, k: nat)
    requires k < |s| - 1
    ensures var n, rest := |s| - 1, s[k + 1..];
            && s[..n][k] == s[k] && s[..n][..k] == s[..k] && s[..n][..k + 1] == s[..k + 1] && s[..n + 1] == s
            && |rest| == n - k && rest[..n - k - 1] == s[..n][k + 1..] && rest[n - k - 1] == s[n]
  {
  }

  lemma ForAllNext(name: string, during: seq<seq<Arrival>>)
    requires during != []
    ensures ForAll(name, during) == ForAll(name, during[..|during| - 1]) + For(name, during[|during| - 1])
  {
  }

  lemma Earlier(names: seq<string>, k: nat)
    requires NoDup(names) && k < |names|
    ensures names[k] !in names[..k] && NoDup(names[..k])
    ensures forall j :: 0 <= j < k ==> names[j] != names[k]
  {
  }

  lemma ReadHere(c: Contents, name: string, during: seq<Arrival>)
    requires name in c
    ensures var r := OneRead(c, name, during); name in r && r[name] == AfterRead(c[name], For(name, during))
  {
    hide AfterRead;
  }

  lemma ReadElsewhere(c: Contents, name: string, during: seq<Arrival>, other: string)
    requires other in c && other != name
    ensures var r := OneRead(c, name, during); other in r && r[other] == Received(c[other], For(other, during))
  {
    hide AfterRead, Received;
  }

  // ----- one read -----

  lemma {:induction false} SharedWindow(q: seq<Message>, during: seq<Message>)
    requires 0 < |q| <= LIMIT
    ensures var w := AllArrived(Opened(q), during);
            if |q| + |during| <= LIMIT then w == Window(true, q + during, q + during)
            else !w.shared && w.buf == q + during[..LIMIT + 1 - |q|]
    decreases |during|
  {
    if during != [] {
      var n := |during| - 1;
      SharedWindow(q, during[..n]);
      assert during == during[..n] + [during[n]];
      if |q| + n > LIMIT {
        assert during[..n][..LIMIT + 1 - |q|] == during[..LIMIT + 1 - |q|];
      } else {
        assert q + during == q + during[..n] + [during[n]];
        assert |q| + |during| > LIMIT ==> during[..LIMIT + 1 - |q|] == during;
      }
    } else {
      assert q + during == q;
    }
  }

  lemma {:induction false} DetachedWindow(during: seq<Message>)
    ensures AllArrived(Opened([]), during).buf == [] && !AllArrived(Opened([]), during).shared
    decreases |during|
  {
    if during == [] {
    } else {
      DetachedWindow(during[..|during| - 1]);
    }
  }

  /** What a read leaves: of the messages that arrive during it, all that fit until the callback replaces the list;
      none at all if the inbox was empty when the read began. */
  lemma AfterReadKeeps(q: seq<Message>, during: seq<Message>)
    requires |q| <= LIMIT
    ensures AfterRead(q, during) ==
            if q == [] then [] else if |q| + |during| <= LIMIT + 1 then during else during[..LIMIT + 1 - |q|]
  {
    if q == [] {
      DetachedWindow(during);
    } else {
      SharedWindow(q, during);
      assert |q| + |during| == LIMIT + 1 ==> during[..LIMIT + 1 - |q|] == during;
    }
  }

  /** A message that arrives during a read is promised to stay for the next one. One that finds the inbox empty is
      gone: neither returned nor left. */
  lemma ArrivalLost(m: Message)
    ensures AfterRead([], [m]) == []
  {
    AfterReadKeeps([], [m]);
  }

  // ----- runs -----

  /** Messages that arrive before a read, and while it runs. */
  datatype Round = Round(before: seq<Message>, during: seq<Message>)

  function Everything(rounds: seq<Round>): seq<Message> {
    if rounds == [] then [] else rounds[0].before + rounds[0].during + Everything(rounds[1..])
  }

  /** All that the reads return, in order, and what is left in the end. */
  function Drain(q: seq<Message>, rounds: seq<Round>): (seq<Message>, seq<Message>)
    decreases |rounds|
  {
    if rounds == [] then ([], q)
    else
      var found := Received(q, rounds[0].before);
      var later := Drain(AfterRead(found, rounds[0].during), rounds[1..]);
      (found + later.0, later.1)
  }

  /** A read keeps all that arrives during it if nothing does, or if it began on an inbox that was not empty and
      that does not outgrow the limit by more than the message which trims it. */
  predicate Keeps(found: seq<Message>, during: seq<Message>) {
    during == [] || (found != [] && |found| + |during| <= 1001)
  }

  predicate Careful(q: seq<Message>, rounds: seq<Round>)
    decreases |rounds|
  {
    rounds == [] ||
    var found := Received(q, rounds[0].before);
    && |q| + |rounds[0].before| <= 1000
    && Keeps(found, rounds[0].during)
    && Careful(AfterRead(found, rounds[0].during), rounds[1..])
  }

  lemma {:induction false} ReceivedBounds(q: seq<Message>, arrivals: seq<Message>)
    requires |q| <= LIMIT
    ensures |Received(q, arrivals)| <= LIMIT
    ensures if |q| + |arrivals| <= LIMIT then Received(q, arrivals) == q + arrivals
            else |Received(q, arrivals)| < |q| + |arrivals|
    decreases |arrivals|
  {
    if arrivals == [] {
    } else {
      var n := |arrivals| - 1;
      ReceivedBounds(q, arrivals[..n]);
      assert q + arrivals == q + arrivals[..n] + [arrivals[n]];
    }
  }

  lemma RestBounds(found: seq<Message>, during: seq<Message>)
    requires |found| <= LIMIT
    ensures |AfterRead(found, during)| <= LIMIT
    ensures if Keeps(found, during) then AfterRead(found, during) == during else |AfterRead(found, during)| < |during|
  {
    hide AfterRead;
    AfterReadKeeps(found, during);
  }

  lemma CappedSuffix(all: seq<Message>, r: seq<Message>, m: Message)
    requires |r| <= |all| && r == all[|all| - |r|..] && |r| <= 1000
    ensures var more, r' := all + [m], Capped(r + [m]);
            |r'| <= |more| && r' == more[|more| - |r'|..] && |r'| <= 1000
            && (|r| < 1000 ==> |r'| == |r| + 1) && (|r| == 1000 ==> |r'| == 500)
  {
    var more := all + [m];
    assert r + [m] == more[|more| - |r| - 1..];
    if |r| == 1000 { assert (r + [m])[501..] == more[|more| - 500..]; }
  }

  lemma WholeSuffix(all: seq<Message>, r: seq<Message>)
    requires |r| <= |all| && r == all[|all| - |r|..]
    ensures |r| == |all| ==> r == all
  {
  }

  /** Arrivals push out the oldest messages only: what stays is the end of all that came, all of it up to the limit, and
      never less than the five hundred newest. */
  lemma {:induction false} ReceivedIsSuffix(q: seq<Message>, arrivals: seq<Message>)
    requires |q| <= LIMIT
    ensures var all, r := q + arrivals, Received(q, arrivals);
            && |r| <= |all| && r == all[|all| - |r|..] && |r| <= 1000
            && (|all| <= 1000 ==> r == all) && (|all| > 1000 ==> |r| >= 500)
    decreases |arrivals|
  {
    hide Capped;
    if arrivals == [] {
      assert q + arrivals == q;
    } else {
      var n := |arrivals| - 1;
      var all, r := q + arrivals[..n], Received(q, arrivals[..n]);
      assert Received(q, arrivals) == Capped(r + [arrivals[n]]);
      assert q + arrivals == all + [arrivals[n]];
      hide Received;
      ReceivedIsSuffix(q, arrivals[..n]);
      CappedSuffix(all, r, arrivals[n]);
      WholeSuffix(all + [arrivals[n]], Capped(r + [arrivals[n]]));
    }
  }

  lemma {:induction false} CarefulDrain(q: seq<Message>, rounds: seq<Round>)
    requires |q| <= LIMIT && Careful(q, rounds)
    ensures Drain(q, rounds).0 + Drain(q, rounds).1 == q + Everything(rounds)
    decreases |rounds|
  {
    hide AfterRead, Received, Keeps;
    if rounds == [] {
    } else {
      var before, during := rounds[0].before, rounds[0].during;
      ReceivedBounds(q, before);
      RestBounds(q + before, during);
      CarefulDrain(during, rounds[1..]);
      var later := Drain(during, rounds[1..]);
      Regroup(q, before, during, Everything(rounds[1..]), later.0, later.1);
    }
  }

  lemma Regroup(q: seq<Message>, before: seq<Message>, during: seq<Message>, more: seq<Message>,
                returned: seq<Message>, left: seq<Message>)
    requires returned + left == during + more
    ensures (q + before + returned) + left == q + (before + during + more)
  {
    assert (q + before + returned) + left == q + before + (returned + left);
  }

  lemma {:induction false} CarelessDrain(q: seq<Message>, rounds: seq<Round>)
    requires |q| <= LIMIT
    ensures |Drain(q, rounds).0| + |Drain(q, rounds).1| <= |q| + |Everything(rounds)|
    ensures !Careful(q, rounds) ==> |Drain(q, rounds).0| + |Drain(q, rounds).1| < |q| + |Everything(rounds)|
    decreases |rounds|
  {
    hide AfterRead, Received, Keeps;
    if rounds == [] {
    } else {
      var found := Received(q, rounds[0].before);
      ReceivedBounds(q, rounds[0].before);
      RestBounds(found, rounds[0].during);
      CarelessDrain(AfterRead(found, rounds[0].during), rounds[1..]);
    }
  }

  /** Over every run of arrivals and reads: the reads together with what is left give back everything received, in
      order, if and only if no trim drops messages between reads and each read keeps what arrives during it. */
  lemma ReadsReturnEverythingIff(rounds: seq<Round>)
    ensures var d := Drain([], rounds);
            d.0 + d.1 == Everything(rounds) <==> Careful([], rounds)
  {
    CarelessDrain([], rounds);
    if Careful([], rounds) {
      CarefulDrain([], rounds);
      assert [] + Everything(rounds) == Everything(rounds);
    }
  }
}
