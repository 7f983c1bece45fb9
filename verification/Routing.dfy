/** Event routing of `@on` handlers: a broker pattern that over-approximates, then a filter that is exact. */
module Routing {
  import opened Text
  import opened Subjects
  import Matching

  /** `device-connect.{tenant}.{device}.event.{event}`, for publishing and for subscribing. */
  function EventSubject(tenant: string, device: string, event: string): string {
    Dotted(["device-connect", tenant, device, "event", event])
  }

  predicate Absent(o: Option<string>) {
    o.None? || o.value == ""
  }

  function CleanEvent(event: string): string {
    if StartsWith(event, "event/") then event[6..] else event
  }

  /** The subject that `_setup_subscription` builds for a handler without lifecycle event. */
  function Pattern(tenant: string, device: Option<string>, event: Option<string>): string {
    var devicePart := if Absent(device) || Matching.IsGlob(device.value) then "*" else device.value;
    var eventPart := CleanEvent(if Absent(event) then "*" else event.value);
    EventSubject(tenant, devicePart, eventPart)
  }

  /** `_device_id_matches`. */
  predicate DeviceIdMatches(filter: Option<string>, source: string) {
    if Absent(filter) then true
    else if Matching.IsGlob(filter.value) then Matching.Glob(source, filter.value)
    else source == filter.value
  }

  /** The part of `message_handler` that reads the source device out of the matched subject. */
  function SourceDevice(matched: string): string {
    var sep := if '/' in matched then '/' else '.';
    var parts := Split(matched, sep);
    if |parts| >= 5 && parts[|parts| - 2] == "event" then Join(parts[2..|parts| - 2], sep)
    else if |parts| > 2 then parts[2]
    else "unknown"
  }

  /** The handler runs on a delivered message whose source passes the filter. */
  predicate HandlerRuns(delivered: bool, filter: Option<string>, matched: string) {
    delivered && DeviceIdMatches(filter, SourceDevice(matched))
  }

  predicate NatsDelivers(subject: string, pattern: string) {
    NatsMatch(Split(subject, '.'), Split(pattern, '.'))
  }

  predicate MqttDelivers(subject: string, pattern: string) {
    TopicMatches(Convert(subject), Convert(pattern))
  }

  // ----- what a handler asks for, in terms of its decorator's arguments -----

  /** No event name asks for every event; a name asks for that event, with or without `event/` before it. */
  predicate EventAsked(asked: Option<string>, event: string) {
    match asked
    case None => true
    case Some(name) => name == "" || name == event || name == "event/" + event
  }

  /** No device id asks for every device; a glob for the ids it matches; a literal for that id, here spelled `literal`.
      The first two reach only ids without dots. */
  predicate DeviceAsked(asked: Option<string>, device: string, literal: string) {
    match asked
    case None => '.' !in device
    case Some(p) =>
      if p == "" then '.' !in device
      else if '*' in p || '?' in p || '[' in p then '.' !in device && Matching.Glob(device, p)
      else p == literal
  }

  lemma EventAskedFor(asked: Option<string>, event: string)
    requires Plain(event)
    ensures EventAsked(asked, event) <==> Absent(asked) || event == CleanEvent(asked.value)
  {
    if asked.Some? && StartsWith(asked.value, "event/") {
      var name := asked.value;
      assert name == name[..6] + name[6..] && name[..6] == "event/" && name[5] == '/';
      assert ("event/" + event)[6..] == event;
    }
  }

  lemma DeviceAskedFor(asked: Option<string>, device: string, literal: string)
        ensures DeviceAsked(asked, device, literal) <==>
            if Absent(asked) || Matching.IsGlob(asked.value) then '.' !in device && DeviceIdMatches(asked, device)
            else asked.value == literal
  {
    hide Matching.Glob;
    if asked.Some? {
      var p := asked.value;
      assert '*' in p || '?' in p || '[' in p <==> Matching.IsGlob(p);
    }
  }

  // ----- subjects as token lists -----

  function Tokens(tenant: string, device: seq<string>, event: string): seq<string> {
    ["device-connect", tenant] + device + ["event", event]
  }

  lemma {:induction false} JoinNested(before: seq<string>, middle: seq<string>, after: seq<string>, sep: char)
    requires |middle| >= 1
    ensures Join(before + [Join(middle, sep)] + after, sep) == Join(before + middle + after, sep)
    decreases |before|
  {
    if before == [] {
      assert [] + middle + after == middle + after && [] + [Join(middle, sep)] + after == [Join(middle, sep)] + after;
      JoinInto(middle, after, sep);
    } else {
      JoinNested(before[1..], middle, after, sep);
      assert (before + middle + after)[1..] == before[1..] + middle + after;
      assert (before + [Join(middle, sep)] + after)[1..] == before[1..] + [Join(middle, sep)] + after;
    }
  }

  lemma {:induction false} JoinInto(middle: seq<string>, after: seq<string>, sep: char)
    requires |middle| >= 1
    ensures Join([Join(middle, sep)] + after, sep) == Join(middle + after, sep)
  {
    if |middle| == 1 {
      assert [Join(middle, sep)] + after == middle + after;
    } else {
      var rest := middle[1..];
      JoinInto(rest, after, sep);
      assert middle == [middle[0]] + rest && middle + after == [middle[0]] + (rest + after);
      JoinTwo(middle[0], rest, sep);
      JoinTwo(middle[0], rest + after, sep);
      if after == [] {
        assert [Join(middle, sep)] + after == [Join(middle, sep)] && rest + after == rest;
      } else {
        hide Join;
        JoinTwo(Join(middle, sep), after, sep);
        JoinTwo(Join(rest, sep), after, sep);
      }
    }
  }

  /** An event subject splits into its tokens, those of a dotted device id one by one. */
  lemma SubjectTokens(tenant: string, device: string, event: string)
    requires Plain(tenant) && Plain(event)
    ensures Split(EventSubject(tenant, device, event), '.') == Tokens(tenant, Split(device, '.'), event)
  {
    hide Join, Split;
    var ids := Split(device, '.');
    JoinOfSplit(device, '.');
    var before, after := ["device-connect", tenant], ["event", event];
    JoinNested(before, ids, after, '.');
    assert before + [device] + after == ["device-connect", tenant, device, "event", event];
    SplitParts(device, '.');
    assert "device-connect"[6] == '-' && '.' !in "device-connect" && '.' !in "event";
    SplitOfJoin(before + ids + after, '.');
  }

  lemma {:induction false} SlashInJoin(parts: seq<string>, sep: char)
    requires sep != '/' && forall k :: 0 <= k < |parts| ==> '/' !in parts[k]
    ensures '/' !in Join(parts, sep)
  {
    if |parts| > 1 { SlashInJoin(parts[1..], sep); }
  }

  /** Reading a built subject from the end gives the device id back, dots and all. */
  lemma SourceOfBuilt(tenant: string, device: string, event: string)
    requires Plain(tenant) && Plain(event) && '/' !in device
    ensures SourceDevice(EventSubject(tenant, device, event)) == device
  {
    hide Join, Split;
    var ids := Split(device, '.');
    var parts := Tokens(tenant, ids, event);
    SubjectTokens(tenant, device, event);
    assert '/' !in "device-connect" && '/' !in "event";
    SlashInJoin(["device-connect", tenant, device, "event", event], '.');
    assert parts[2..|parts| - 2] == ids;
    JoinOfSplit(device, '.');
  }

  // ----- NATS -----

  lemma {:induction false} NatsPrefix(before: seq<string>, s: seq<string>, p: seq<string>)
    requires forall k :: 0 <= k < |before| ==> before[k] != "*" && before[k] != ">"
    ensures NatsMatch(before + s, before + p) <==> NatsMatch(s, p)
    decreases |before|
  {
    if before == [] {
      assert before + s == s && before + p == p;
    } else {
      assert (before + s)[1..] == before[1..] + s && (before + p)[1..] == before[1..] + p;
      assert (before + p)[0] == (before + s)[0] == before[0];
      NatsPrefix(before[1..], s, p);
    }
  }

  lemma NatsEventPart(event: string, eventPart: string)
    requires SubjectToken(event) && eventPart != ">"
    ensures NatsMatch(["event", event], ["event", eventPart]) <==> eventPart == "*" || eventPart == event
  {
    var s, p := ["event", event], ["event", eventPart];
    assert s[1..] == [event] && p[1..] == [eventPart];
    assert NatsMatch([event], [eventPart]) <==> eventPart == "*" || eventPart == event by {
      assert [event][1..] == [] && [eventPart][1..] == [];
    }
  }

  /** The device part of a pattern, a star or the same tokens, against a device id's tokens. */
  lemma NatsDevice(ids: seq<string>, event: string, eventPart: string)
    requires LegalSubject(ids) && SubjectToken(event) && eventPart != ">"
    ensures var matched := NatsMatch(["event", event], ["event", eventPart]);
            && (NatsMatch(ids + ["event", event], ids + ["event", eventPart]) <==> matched)
            && (NatsMatch(ids + ["event", event], ["*"] + ["event", eventPart]) <==> |ids| == 1 && matched)
  {
    hide NatsMatch;
    var s, p := ids + ["event", event], ["*"] + ["event", eventPart];
    NatsPrefix(ids, ["event", event], ["event", eventPart]);
    NatsByPosition(s, p);
    NatsByPosition(["event", event], ["event", eventPart]);
  }

  /** The names routed to the tenant-wide lifecycle subjects instead. */
  predicate IsLifecycle(event: string) {
    event in {"peer_present", "peer_lost", "device.online", "device.offline"}
  }

  /** The event parts that can be asked for: absent, or one wildcard-free token that is no lifecycle name. */
  predicate PlainEventFilter(event: Option<string>) {
    Absent(event) || (!IsLifecycle(event.value) && SubjectToken(CleanEvent(event.value)))
  }

  /** What the broker delivers to a handler whose device filter the id passes. */
  lemma NatsDelivery(tenant: string, device: string, event: string, wide: bool, eventPart: string)
    requires SubjectToken(tenant) && SubjectToken(event) && LegalSubject(Split(device, '.'))
    requires Plain(eventPart) && eventPart != ">"
    ensures NatsDelivers(EventSubject(tenant, device, event),
                         EventSubject(tenant, if wide then "*" else device, eventPart))
            <==> (wide ==> '.' !in device) && (eventPart == "*" || eventPart == event)
  {
    hide Split, Join, NatsMatch, EventSubject;
    var ids := Split(device, '.');
    SubjectTokens(tenant, device, event);
    SubjectTokens(tenant, if wide then "*" else device, eventPart);
    NatsEventPart(event, eventPart);
    NatsDevice(ids, event, eventPart);
    DottedDevice(device);
    SplitOfPart("*", '.');
    var head := ["device-connect", tenant];
    var devicePart := if wide then ["*"] else ids;
    NatsPrefix(head, ids + ["event", event], devicePart + ["event", eventPart]);
    assert Tokens(tenant, ids, event) == head + (ids + ["event", event]);
    assert Tokens(tenant, devicePart, eventPart) == head + (devicePart + ["event", eventPart]);
  }

  /** On which wildcard-free event subjects a handler runs behind a broker with NATS rules: those of the event and of a
      device it asks for. A dotted device id is reached only by naming it. */
  lemma NatsRoutingIsExact(
      tenant: string, device: string, event: string, deviceFilter: Option<string>, eventFilter: Option<string>)
    requires SubjectToken(tenant) && SubjectToken(event) && '/' !in device && LegalSubject(Split(device, '.'))
    requires PlainEventFilter(eventFilter)
    ensures var subject := EventSubject(tenant, device, event);
            HandlerRuns(NatsDelivers(subject, Pattern(tenant, deviceFilter, eventFilter)), deviceFilter, subject) <==>
            DeviceAsked(deviceFilter, device, device) && EventAsked(eventFilter, event)
  {
    hide NatsDelivers, EventAsked, DeviceAsked, Split, Matching.Glob, SourceDevice, EventSubject;
    var wide := Absent(deviceFilter) || Matching.IsGlob(deviceFilter.value);
    var eventPart := CleanEvent(if Absent(eventFilter) then "*" else eventFilter.value);
    DeviceAskedFor(deviceFilter, device, device);
    EventAskedFor(eventFilter, event);
    SourceOfBuilt(tenant, device, event);
    NatsDelivery(tenant, device, event, wide, eventPart);
  }

  lemma DottedDevice(device: string)
    ensures |Split(device, '.')| == 1 <==> '.' !in device
  {
    hide Split;
    JoinOfSplit(device, '.');
    if '.' !in device { SplitOfPart(device, '.'); }
    SplitParts(device, '.');
  }

  // ----- MQTT -----

  /** A token that is no wildcard in MQTT either. */
  predicate TopicToken(t: string) {
    SubjectToken(t) && t != "+" && t != "#"
  }

  predicate TopicIds(ids: seq<string>) {
    |ids| >= 1 && forall k :: 0 <= k < |ids| ==> TopicToken(ids[k])
  }

  /** A device id as the levels of a topic, or of a key. */
  function Slashes(device: string): string {
    Replace(device, '.', '/')
  }

  lemma BuiltSubject(tenant: string, device: string, event: string)
    requires TopicToken(tenant) && TopicToken(event) && TopicIds(Split(device, '.'))
    ensures var s := Tokens(tenant, Split(device, '.'), event);
            LegalSubject(s) && LegalPattern(s) && !Shared(s) && EventSubject(tenant, device, event) == Dotted(s)
  {
    hide Join, Split;
    PlainWords();
    SubjectTokens(tenant, device, event);
    JoinOfSplit(EventSubject(tenant, device, event), '.');
  }

  lemma IdsJoin(device: string)
    requires TopicIds(Split(device, '.'))
    ensures Slashes(device) == Join(Split(device, '.'), '/')
  {
    hide Join, Split, Replace;
    JoinOfSplit(device, '.');
    JoinReplaced(Split(device, '.'));
  }

  /** On an MQTT topic the device id reads back with slashes for its dots. */
  lemma SourceOfTopic(tenant: string, device: string, event: string)
    requires TopicToken(tenant) && TopicToken(event) && TopicIds(Split(device, '.'))
    ensures SourceDevice(Convert(EventSubject(tenant, device, event))) == Slashes(device)
  {
    hide Join, Split, Convert, Slashes;
    var ts := Tokens(tenant, Split(device, '.'), event);
    BuiltSubject(tenant, device, event);
    ConvertedLevels(ts);
    ConvertTokens(ts);
    SubjectLevels(ts);
    IdsJoin(device);
    assert ts[2..|ts| - 2] == Split(device, '.');
    SlashBetween(ts);
  }

  lemma PlainWords()
    ensures TopicToken("device-connect") && TopicToken("event")
  {
    assert "device-connect"[0] == 'd' && "event"[0] == 'e';
  }

  lemma SlashBetween(ts: seq<string>)
    requires |ts| >= 2
    ensures '/' in Join(ts, '/')
  {
    assert Join(ts, '/')[|ts[0]|] == '/';
  }

  lemma SameWhenReplaced(x: string, y: string)
    requires |x| == |y| && forall k :: 0 <= k < |x| ==> x[k] == y[k] || (x[k] == '/' && y[k] == '.')
    ensures Slashes(x) == Slashes(y)
  {
    forall k | 0 <= k < |x| ensures Slashes(x)[k] == Slashes(y)[k] {
      assert Slashes(x)[k] == if x[k] == '.' then '/' else x[k];
    }
  }

  lemma JoinTwo(part: string, more: seq<string>, sep: char)
    requires more != []
    ensures Join([part] + more, sep) == part + [sep] + Join(more, sep)
  {
    assert ([part] + more)[1..] == more;
  }

  lemma JoinFive(a: string, b: string, c: string, d: string, e: string, sep: char)
    ensures Join([a, b, c, d, e], sep) == a + [sep] + b + [sep] + c + [sep] + d + [sep] + e
  {
    hide Join;
    assert [d] + [e] == [d, e] && [c] + [d, e] == [c, d, e] && [b] + [c, d, e] == [b, c, d, e];
    assert [a] + [b, c, d, e] == [a, b, c, d, e];
    JoinTwo(d, [e], sep);
    JoinOne(e, sep);
    JoinTwo(c, [d, e], sep);
    JoinTwo(b, [c, d, e], sep);
    JoinTwo(a, [b, c, d, e], sep);
  }

  lemma SubjectText(tenant: string, device: string, event: string)
    ensures EventSubject(tenant, device, event) == "device-connect." + tenant + "." + device + ".event." + event
  {
    hide Join;
    JoinFive("device-connect", tenant, device, "event", event, '.');
    assert ['.'] + "event" + ['.'] == ".event.";
  }

  /** A device named with slashes subscribes to the topic of the dotted one. */
  lemma NamedWithSlashes(tenant: string, device: string, event: string)
    ensures Convert(EventSubject(tenant, Slashes(device), event)) == Convert(EventSubject(tenant, device, event))
  {
    hide Join, Replace;
    JoinFive("device-connect", tenant, device, "event", event, '.');
    JoinFive("device-connect", tenant, Slashes(device), "event", event, '.');
    SameAround("device-connect" + ['.'] + tenant + ['.'], device, ['.'] + "event" + ['.'] + event);
    assert EventSubject(tenant, device, event) ==
           "device-connect" + ['.'] + tenant + ['.'] + device + (['.'] + "event" + ['.'] + event);
    assert EventSubject(tenant, Slashes(device), event) ==
           "device-connect" + ['.'] + tenant + ['.'] + Slashes(device) + (['.'] + "event" + ['.'] + event);
  }

  lemma SameAround(before: string, device: string, after: string)
    ensures Slashes(before + Slashes(device) + after) == Slashes(before + device + after)
  {
    SameWhenReplaced(before + Slashes(device) + after, before + device + after);
  }

  /** How the pattern's tokens stand to the subject's, the device part being a star or the subject's own. */
  lemma MqttDevice(tenant: string, ids: seq<string>, event: string, wide: bool, eventPart: string)
    requires TopicToken(tenant) && TopicToken(event) && TopicIds(ids)
    requires eventPart == "*" || TopicToken(eventPart)
    requires |ids| > 1 && wide ==> '#' !in tenant && '#' !in eventPart
    ensures var s, p := Tokens(tenant, ids, event), Tokens(tenant, if wide then ["*"] else ids, eventPart);
            && LegalPattern(p) && p != [">"] && !Shared(p)
            && (AdapterMatches(s, p) <==> (wide ==> |ids| == 1) && (eventPart == "*" || eventPart == event))
  {
    hide NatsMatch;
    PlainWords();
    var s, p := Tokens(tenant, ids, event), Tokens(tenant, if wide then ["*"] else ids, eventPart);
    NatsByPosition(s, p);
    var n := |p|;
    assert p[n - 1] == eventPart && p[n - 2] == "event" && s[|s| - 1] == event && s[|s| - 2] == "event";
    if |s| == |p| {
      assert TokensAgree(s, p) <==> eventPart == "*" || eventPart == event;
    } else {
      assert wide && |ids| > 1 && !HashInside(p) by { NoHash(tenant, eventPart); }
    }
  }

  lemma NoHash(tenant: string, eventPart: string)
    requires '#' !in tenant && '#' !in eventPart
    ensures !HashInside(Tokens(tenant, ["*"], eventPart))
  {
    assert '#' !in "device-connect" && '#' !in "event" && '#' !in "*";
  }

  lemma DeviceDelivery(tenant: string, device: string, event: string, deviceFilter: Option<string>, eventPart: string)
    requires TopicToken(tenant) && TopicToken(event) && TopicIds(Split(device, '.'))
    requires eventPart == "*" || TopicToken(eventPart)
    requires '.' in device ==> '#' !in tenant && '#' !in eventPart
    requires DeviceIdMatches(deviceFilter, Slashes(device))
    ensures var wide := Absent(deviceFilter) || Matching.IsGlob(deviceFilter.value);
            MqttDelivers(EventSubject(tenant, device, event),
                         EventSubject(tenant, if wide then "*" else deviceFilter.value, eventPart))
            <==> (wide ==> '.' !in device) && (eventPart == "*" || eventPart == event)
  {
    hide Join, Split, Convert, TopicMatches, AdapterMatches, Matching.Glob, EventSubject, Slashes;
    var wide := Absent(deviceFilter) || Matching.IsGlob(deviceFilter.value);
    var ids := Split(device, '.');
    DottedDevice(device);
    BuiltSubject(tenant, device, event);
    MqttDevice(tenant, ids, event, wide, eventPart);
    var s, p := Tokens(tenant, ids, event), Tokens(tenant, if wide then ["*"] else ids, eventPart);
    MatchesExactly(s, p);
    PatternText(tenant, if wide then "*" else device, eventPart);
    if wide { SplitOfPart("*", '.'); } else { NamedWithSlashes(tenant, device, eventPart); }
  }

  lemma PatternText(tenant: string, devicePart: string, eventPart: string)
    requires Plain(tenant) && Plain(eventPart)
    ensures EventSubject(tenant, devicePart, eventPart) == Dotted(Tokens(tenant, Split(devicePart, '.'), eventPart))
  {
    hide Join, Split;
    SubjectTokens(tenant, devicePart, eventPart);
    JoinOfSplit(EventSubject(tenant, devicePart, eventPart), '.');
  }

  /** Through the MQTT adapter, a handler runs on exactly the event subjects of the event and of a device it asks for,
      a dotted id being named with slashes for its dots. (A dotted id under a tenant or an event that holds a hash sign
      is left open: MQTT publishes no such topic.) */
  lemma MqttRoutingIsExact(
      tenant: string, device: string, event: string, deviceFilter: Option<string>, eventFilter: Option<string>)
    requires TopicToken(tenant) && TopicToken(event) && TopicIds(Split(device, '.'))
    requires PlainEventFilter(eventFilter)
    requires !Absent(eventFilter) ==> TopicToken(CleanEvent(eventFilter.value))
    requires '.' in device ==> '#' !in tenant && (Absent(eventFilter) || '#' !in CleanEvent(eventFilter.value))
    ensures var subject := EventSubject(tenant, device, event);
            var delivered := MqttDelivers(subject, Pattern(tenant, deviceFilter, eventFilter));
            HandlerRuns(delivered, deviceFilter, Convert(subject))
            <==>
            DeviceAsked(deviceFilter, device, Replace(device, '.', '/')) && EventAsked(eventFilter, event)
  {
    DeviceAskedFor(deviceFilter, device, Slashes(device));
    EventAskedFor(eventFilter, event);
    hide EventAsked, DeviceAsked;
    hide Split, Join, Matching.Glob, SourceDevice, Convert, TopicMatches, EventSubject;
    SourceOfTopic(tenant, device, event);
    SlashesWithoutDots(device);
    if DeviceIdMatches(deviceFilter, Slashes(device)) {
      var eventPart := CleanEvent(if Absent(eventFilter) then "*" else eventFilter.value);
      DeviceDelivery(tenant, device, event, deviceFilter, eventPart);
    }
  }

  lemma SlashesWithoutDots(device: string)
    ensures '.' !in device ==> Slashes(device) == device
  {
  }
}
