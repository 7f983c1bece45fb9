/** Dotted subjects and their wildcards, and the MQTT adapter's translation and matching of them. */
module Subjects {
  import opened Text

  // ----- subjects and patterns as token lists -----

  /** `*` stands for one token, a final `>` for one or more. */
  predicate NatsMatch(s: seq<string>, p: seq<string>) {
    if p == [] then s == []
    else if s == [] then false
    else if p == [">"] then true
    else (p[0] == "*" || p[0] == s[0]) && NatsMatch(s[1..], p[1..])
  }

  predicate Plain(t: string) {
    '.' !in t && '/' !in t
  }

  /** A token of a published subject: no separator in it and no wildcard. */
  predicate SubjectToken(t: string) {
    Plain(t) && t != "*" && t != ">"
  }

  predicate LegalSubject(s: seq<string>) {
    |s| >= 1 && forall k :: 0 <= k < |s| ==> SubjectToken(s[k])
  }

  /** `>` stands last or not at all; the MQTT wildcards are not tokens of their own. */
  predicate LegalPattern(p: seq<string>) {
    |p| >= 1 && forall k :: 0 <= k < |p| ==>
      Plain(p[k]) && p[k] != "+" && p[k] != "#" && (p[k] == ">" ==> k == |p| - 1)
  }

  predicate HasTail(p: seq<string>) {
    p != [] && p[|p| - 1] == ">"
  }

  /** Some token holds a hash sign among other characters. */
  predicate HashInside(p: seq<string>) {
    exists k :: 0 <= k < |p| && '#' in p[k]
  }

  // ----- the adapter -----

  function MapStars(parts: seq<string>): (r: seq<string>)
    ensures |r| == |parts|
  {
    seq(|parts|, k requires 0 <= k < |parts| => if parts[k] == "*" then "+" else parts[k])
  }

  /** `convert_subject_syntax` of the MQTT adapter. */
  function Convert(subject: string): string {
    var topic := Join(MapStars(Split(Replace(subject, '.', '/'), '/')), '/');
    if EndsWith(topic, "/>") then topic[..|topic| - 2] + "/#" else topic
  }

  const SHARE := "$share/"

  function WithoutShare(pattern: string): string {
    if StartsWith(pattern, SHARE) then
      var parts := Split(pattern, '/');
      Join(if |parts| > 2 then parts[2..] else [], '/')
    else pattern
  }

  function IndexOf(parts: seq<string>, part: string): (k: nat)
    ensures k <= |parts|
    ensures k < |parts| ==> parts[k] == part
    ensures forall i :: 0 <= i < k ==> parts[i] != part
  {
    if parts == [] || parts[0] == part then 0 else 1 + IndexOf(parts[1..], part)
  }

  /** Levels agree as far as the pattern goes. */
  predicate LevelsAgree(topic: seq<string>, pattern: seq<string>) {
    |pattern| <= |topic| && forall k :: 0 <= k < |pattern| ==> pattern[k] == "+" || topic[k] == pattern[k]
  }

  /** `_topic_matches` on the levels of a topic and of a pattern without share prefix; `hash` tells whether the
      pattern's text holds a hash sign anywhere. */
  predicate LevelsMatch(topic: seq<string>, pattern: seq<string>, hash: bool) {
    var at := IndexOf(pattern, "#");
    if at < |pattern| then at == |pattern| - 1 && LevelsAgree(topic, pattern[..at])
    else LevelsAgree(topic, pattern) && (hash || |topic| == |pattern|)
  }

  predicate TopicMatches(topic: string, pattern: string) {
    var bare := WithoutShare(pattern);
    LevelsMatch(Split(topic, '/'), Split(bare, '/'), '#' in bare)
  }

  /** The comparison loop of `_topic_matches`, up to the length of the pattern. */
  method CompareLevels(topic: seq<string>, pattern: seq<string>) returns (r: bool)
    ensures r <==> LevelsAgree(topic, pattern)
  {
    if |topic| < |pattern| { return false; }
    for i := 0 to |pattern|
      invariant forall k :: 0 <= k < i ==> pattern[k] == "+" || topic[k] == pattern[k]
    {
      if pattern[i] != "+" && topic[i] != pattern[i] { return false; }
    }
    return true;
  }

  /** `_topic_matches`, with its truncations. */
  method MatchTopic(topic: string, pattern: string) returns (r: bool)
    ensures r <==> TopicMatches(topic, pattern)
  {
    hide WithoutShare, Split, LevelsAgree, IndexOf;
    var bare := WithoutShare(pattern);
    var topicParts, patternParts := Split(topic, '/'), Split(bare, '/');
    FirstIndex(patternParts, "#");
    if "#" in patternParts {
      var at := IndexOf(patternParts, "#");
      HashSplit(bare);
      if at != |patternParts| - 1 { return false; }
      AgreesOnPrefix(topicParts, patternParts[..at]);
      r := CompareLevels(if at <= |topicParts| then topicParts[..at] else topicParts, patternParts[..at]);
      return r;
    }
    r := CompareLevels(topicParts, patternParts);
    if '#' !in bare && |topicParts| != |patternParts| { r := false; }
  }

  lemma FirstIndex(parts: seq<string>, part: string)
    ensures part in parts <==> IndexOf(parts, part) < |parts|
  {
    hide IndexOf;
  }

  lemma AgreesOnPrefix(topic: seq<string>, pattern: seq<string>)
    ensures var n := |pattern|;
            LevelsAgree(if n <= |topic| then topic[..n] else topic, pattern) <==> LevelsAgree(topic, pattern)
  {
    var n := |pattern|;
    if n <= |topic| {
      forall k | 0 <= k < n ensures topic[..n][k] == topic[k] {
      }
    }
  }

  // ----- text and tokens -----

  lemma {:induction false} HashSplit(s: string)
    requires "#" in Split(s, '/')
    ensures '#' in s
  {
    if s == "" {
    } else {
      var rest := Split(s[1..], '/');
      if s[0] == '/' {
        assert "#" in rest;
        HashSplit(s[1..]);
      } else if [s[0]] + rest[0] == "#" {
        assert s[0] == ([s[0]] + rest[0])[0];
      } else {
        assert "#" in rest[1..];
        HashSplit(s[1..]);
      }
    }
  }

  lemma {:induction false} HashInText(parts: seq<string>)
    ensures '#' in Join(parts, '/') <==> HashInside(parts)
  {
    if |parts| == 1 {
      assert '#' in parts[0] ==> HashInside(parts);
    } else if |parts| > 1 {
      HashInText(parts[1..]);
      if '#' in parts[0] { assert HashInside(parts); }
      if HashInside(parts[1..]) {
        var k :| 0 <= k < |parts[1..]| && '#' in parts[1..][k];
        assert '#' in parts[k + 1];
      }
      if HashInside(parts) && '#' !in parts[0] {
        var k :| 0 <= k < |parts| && '#' in parts[k];
        assert '#' in parts[1..][k - 1];
      }
    }
  }

  lemma ReplaceConcat(a: string, b: string)
    ensures Replace(a + b, '.', '/') == Replace(a, '.', '/') + Replace(b, '.', '/')
  {
  }

  lemma {:induction false} JoinReplaced(ts: seq<string>)
    requires forall k :: 0 <= k < |ts| ==> Plain(ts[k])
    ensures Replace(Join(ts, '.'), '.', '/') == Join(ts, '/')
  {
    hide Replace;
    if ts == [] {
    } else {
      assert Replace(ts[0], '.', '/') == ts[0];
      if |ts| > 1 {
        JoinReplaced(ts[1..]);
        ReplaceConcat(ts[0] + ['.'], Join(ts[1..], '.'));
        ReplaceConcat(ts[0], ['.']);
      }
    }
  }

  lemma {:induction false} JoinLast(ts: seq<string>)
    requires |ts| >= 2
    ensures Join(ts, '/') == Join(ts[..|ts| - 1], '/') + ['/'] + ts[|ts| - 1]
  {
    var init := ts[..|ts| - 1];
    if |ts| > 2 {
      JoinLast(ts[1..]);
      assert ts[1..][..|ts[1..]| - 1] == init[1..];
    } else {
      assert ts[1..] == [ts[1]] && init == [ts[0]];
    }
  }

  /** The levels that a pattern's or a subject's tokens become. */
  function Levels(ts: seq<string>): (r: seq<string>)
    ensures |r| == |ts|
  {
    if |ts| >= 2 && HasTail(ts) then MapStars(ts)[|ts| - 1 := "#"] else MapStars(ts)
  }

  lemma NoSlashNoTail(t: string)
    requires '/' !in t
    ensures !EndsWith(t, "/>")
  {
    if |t| >= 2 { assert t[|t| - 2..][0] == t[|t| - 2]; }
  }

  lemma TailOf(before: string, last: string)
    requires '/' !in last
    ensures EndsWith(before + ['/'] + last, "/>") <==> last == ">"
  {
    var text := before + ['/'] + last;
    var end := |text|;
    if last == ">" {
      assert text[end - 2..] == "/>";
    } else if |last| >= 2 {
      assert text[end - 2..][0] == last[|last| - 2];
    } else if |last| == 1 {
      assert text[end - 2..][1] == last[0];
    } else if end >= 2 {
      assert text[end - 2..][1] == '/';
    }
  }

  ghost predicate Slashless(us: seq<string>) {
    forall k :: 0 <= k < |us| ==> '/' !in us[k]
  }

  lemma TailInText(us: seq<string>)
    requires |us| >= 1 && Slashless(us)
    ensures EndsWith(Join(us, '/'), "/>") <==> |us| >= 2 && HasTail(us)
  {
    hide Join, EndsWith;
    var last := us[|us| - 1];
    if |us| == 1 {
      assert us == [last];
      JoinOne(last, '/');
      NoSlashNoTail(last);
    } else {
      JoinLast(us);
      TailOf(Join(us[..|us| - 1], '/'), last);
    }
  }

  lemma ReplaceLast(us: seq<string>)
    requires |us| >= 2 && HasTail(us)
    ensures var text := Join(us, '/');
            |text| >= 2 && text[..|text| - 2] + "/#" == Join(us[|us| - 1 := "#"], '/')
  {
    hide Join;
    var vs, text := us[|us| - 1 := "#"], Join(us, '/');
    JoinLast(us);
    JoinLast(vs);
    assert us[..|us| - 1] == vs[..|us| - 1];
    assert text[..|text| - 2] == Join(us[..|us| - 1], '/');
  }

  lemma LevelsPlain(ts: seq<string>)
    requires |ts| >= 1 && forall k :: 0 <= k < |ts| ==> Plain(ts[k])
    ensures Slashless(MapStars(ts)) && Slashless(Levels(ts))
    ensures |MapStars(ts)| == |Levels(ts)| == |ts| && (HasTail(MapStars(ts)) <==> HasTail(ts))
  {
  }

  lemma SplitSlashless(us: seq<string>)
    requires |us| >= 1 && Slashless(us)
    ensures Split(Join(us, '/'), '/') == us
  {
    SplitOfJoin(us, '/');
  }

  lemma ConvertMapped(ts: seq<string>)
    requires |ts| >= 1 && forall k :: 0 <= k < |ts| ==> Plain(ts[k])
    ensures var topic := Join(MapStars(ts), '/');
            Convert(Join(ts, '.')) == if EndsWith(topic, "/>") then topic[..|topic| - 2] + "/#" else topic
  {
    hide Join, Split, Replace, EndsWith, MapStars;
    JoinReplaced(ts);
    SplitOfJoin(ts, '/');
  }

  /** Converting a subject converts its tokens one by one. */
  lemma ConvertTokens(ts: seq<string>)
    requires |ts| >= 1 && forall k :: 0 <= k < |ts| ==> Plain(ts[k])
    ensures Convert(Join(ts, '.')) == Join(Levels(ts), '/')
  {
    hide Join, Split, Convert, EndsWith, Slashless, Plain, MapStars, HasTail;
    var us := MapStars(ts);
    ConvertMapped(ts);
    LevelsPlain(ts);
    TailInText(us);
    if |ts| >= 2 && HasTail(ts) { ReplaceLast(us); }
  }

  lemma ConvertedLevels(ts: seq<string>)
    requires |ts| >= 1 && forall k :: 0 <= k < |ts| ==> Plain(ts[k])
    ensures Split(Convert(Join(ts, '.')), '/') == Levels(ts)
    ensures '#' in Convert(Join(ts, '.')) <==> HashInside(Levels(ts))
  {
    hide Join, Split, Convert, Slashless, Plain, Levels, HashInside;
    ConvertTokens(ts);
    LevelsPlain(ts);
    SplitSlashless(Levels(ts));
    HashInText(Levels(ts));
  }

  // ----- token matching by position -----

  predicate TokensAgree(s: seq<string>, p: seq<string>) {
    |p| <= |s| && forall k :: 0 <= k < |p| ==> p[k] == "*" || p[k] == s[k]
  }

  lemma {:induction false} NatsByPosition(s: seq<string>, p: seq<string>)
    requires forall k :: 0 <= k < |p| - 1 ==> p[k] != ">"
    ensures NatsMatch(s, p) <==>
              if HasTail(p) then |s| >= |p| && TokensAgree(s, p[..|p| - 1]) else |s| == |p| && TokensAgree(s, p)
    decreases |p|
  {
    if p != [] && s != [] && p != [">"] {
      NatsByPosition(s[1..], p[1..]);
      var tail := HasTail(p);
      var q := if tail then p[..|p| - 1] else p;
      var q' := if tail then p[1..][..|p[1..]| - 1] else p[1..];
      assert q' == q[1..] && q[0] == p[0];
      if (p[0] == "*" || p[0] == s[0]) && TokensAgree(s[1..], q') {
        forall k | 0 <= k < |q| && k < |s| ensures q[k] == "*" || q[k] == s[k] {
          if k > 0 { assert q'[k - 1] == q[k]; }
        }
      }
      if TokensAgree(s, q) {
        forall k | 0 <= k < |q'| ensures q'[k] == "*" || q'[k] == s[1..][k] {
          assert q[k + 1] == q'[k];
        }
      }
    }
  }

  // ----- main results -----

  /** The subjects that a pattern names, and with a final `>` also the parent level. */
  predicate Covers(s: seq<string>, p: seq<string>) {
    NatsMatch(s, p) || (HasTail(p) && NatsMatch(s, p[..|p| - 1]))
  }

  /** The adapter skips its length test when a literal token holds a hash sign. */
  predicate Overmatches(s: seq<string>, p: seq<string>) {
    !HasTail(p) && HashInside(p) && |s| > |p| && NatsMatch(s[..|p|], p)
  }

  lemma SubjectLevels(s: seq<string>)
    requires LegalSubject(s)
    ensures Levels(s) == s
  {
  }

  lemma LevelsMatchExactly(s: seq<string>, p: seq<string>)
    requires LegalSubject(s) && LegalPattern(p) && p != [">"]
    ensures LevelsMatch(s, Levels(p), HashInside(Levels(p))) <==> Covers(s, p) || Overmatches(s, p)
  {
    hide NatsMatch, IndexOf;
    var us, at := Levels(p), IndexOf(Levels(p), "#");
    NatsByPosition(s, p);
    assert forall k :: 0 <= k < |p| - 1 ==> us[k] != "#";
    assert |p| == 1 ==> p == [p[0]];
    if HasTail(p) {
      var init := p[..|p| - 1];
      NatsByPosition(s, init);
      assert us[|p| - 1] == "#";
      LevelsAreTokens(s, init);
      assert us[..at] == MapStars(init);
    } else {
      assert at == |p|;
      LevelsAreTokens(s, p);
      assert HashInside(us) <==> HashInside(p) by { HashMapped(p); }
      if |s| > |p| {
        NatsByPosition(s[..|p|], p);
      }
    }
  }

  lemma LevelsAreTokens(s: seq<string>, p: seq<string>)
    requires forall k :: 0 <= k < |p| ==> p[k] != "+"
    ensures LevelsAgree(s, MapStars(p)) <==> TokensAgree(s, p)
  {
    if |p| <= |s| {
      if TokensAgree(s, p) {
        forall k | 0 <= k < |p| ensures MapStars(p)[k] == "+" || s[k] == MapStars(p)[k] { assert p[k] == p[k]; }
      }
      if LevelsAgree(s, MapStars(p)) {
        forall k | 0 <= k < |p| ensures p[k] == "*" || p[k] == s[k] { assert MapStars(p)[k] == MapStars(p)[k]; }
      }
    }
  }

  lemma HashMapped(p: seq<string>)
    ensures HashInside(MapStars(p)) <==> HashInside(p)
  {
    if HashInside(p) {
      var k :| 0 <= k < |p| && '#' in p[k];
      assert '#' in MapStars(p)[k];
    }
  }

  function Dotted(ts: seq<string>): string {
    Join(ts, '.')
  }

  lemma SharePrefix(text: string)
    requires StartsWith(text, SHARE)
    ensures |Split(text, '/')| >= 2 && Split(text, '/')[0] == "$share"
  {
    var rest := text[7..];
    assert text == "$share" + ['/'] + rest;
    SplitFirstPart("$share", rest, '/');
  }

  lemma NoShareToStrip(p: seq<string>)
    requires LegalPattern(p) && !Shared(p)
    ensures WithoutShare(Convert(Dotted(p))) == Convert(Dotted(p))
  {
    hide Join, Split, Convert;
    ConvertedLevels(p);
    if StartsWith(Convert(Dotted(p)), SHARE) { SharePrefix(Convert(Dotted(p))); }
  }

  /** The first token of a pattern makes it a shared subscription. */
  predicate Shared(p: seq<string>) {
    |p| >= 2 && p[0] == "$share"
  }

  /** The tokens of a pattern that name subjects: all of them, or those after the share name. */
  function TopicFilter(p: seq<string>): seq<string> {
    if Shared(p) then p[2..] else p
  }

  /** What the adapter matches. */
  predicate AdapterMatches(s: seq<string>, p: seq<string>) {
    var q := TopicFilter(p);
    if p == [">"] then false
    else if q == [] then s == [""]
    else Covers(s, q) || Overmatches(s, q)
  }

  lemma ShareStripped(p: seq<string>)
    requires LegalPattern(p) && Shared(p)
    ensures var q := Levels(p)[2..];
            && WithoutShare(Convert(Dotted(p))) == Join(q, '/')
            && Split(Join(q, '/'), '/') == (if q == [] then [""] else q) && ('#' in Join(q, '/') <==> HashInside(q))
  {
    hide Join, Split, Convert;
    var text, us := Convert(Dotted(p)), Levels(p);
    var q := us[2..];
    ConvertTokens(p);
    ConvertedLevels(p);
    LevelsPlain(p);
    SharedText(us);
    HashInText(q);
    if q == [] { EmptyText(); } else { SplitSlashless(q); }
  }

  lemma SharedText(us: seq<string>)
    requires |us| >= 2 && us[0] == "$share"
    ensures StartsWith(Join(us, '/'), SHARE)
  {
    assert Join(us, '/') == "$share" + ['/'] + Join(us[1..], '/');
  }

  lemma EmptyText()
    ensures Join([], '/') == "" && Split("", '/') == [""]
  {
  }

  lemma SharedMatchExactly(s: seq<string>, p: seq<string>)
    requires LegalSubject(s) && LegalPattern(p) && Shared(p)
    ensures var q := Levels(p)[2..];
            LevelsMatch(s, if q == [] then [""] else q, HashInside(q)) <==> AdapterMatches(s, p)
  {
    hide Covers, Overmatches, LevelsMatch;
    var q := p[2..];
    if q == [] {
      EmptyFilter(s);
    } else if q == [">"] {
      assert Levels(p)[2..] == ["#"];
      HashMatchesAll(s);
    } else {
      assert LegalPattern(q) && Levels(p)[2..] == Levels(q);
      LevelsMatchExactly(s, q);
    }
  }

  lemma EmptyFilter(s: seq<string>)
    ensures LevelsMatch(s, [""], HashInside([])) <==> s == [""]
  {
    assert IndexOf([""], "#") == 1;
  }

  lemma HashMatchesAll(s: seq<string>)
    requires LegalSubject(s)
    ensures LevelsMatch(s, ["#"], HashInside(["#"])) && Covers(s, [">"])
  {
    assert IndexOf(["#"], "#") == 0;
  }

  /** For wildcard-free subjects and all legal patterns, the adapter's matching of converted text is exactly: the
      subject matches the pattern's filter under NATS rules, or is the parent of its final `>`, or the adapter
      skipped its length test because a literal token of the filter holds a hash sign; a bare `>` matches nothing. */
  lemma MatchesExactly(s: seq<string>, p: seq<string>)
    requires LegalSubject(s) && LegalPattern(p)
    ensures TopicMatches(Convert(Dotted(s)), Convert(Dotted(p))) <==> AdapterMatches(s, p)
  {
    hide Join, Split, Convert, Covers, Overmatches, LevelsMatch, Levels, HashInside, StartsWith, WithoutShare;
    ConvertedLevels(s);
    SubjectLevels(s);
    if p == [">"] {
      BareTailIsLost(s);
    } else if Shared(p) {
      ShareStripped(p);
      SharedMatchExactly(s, p);
    } else {
      NoShareToStrip(p);
      ConvertedLevels(p);
      LevelsMatchExactly(s, p);
    }
  }

  /** A `$share/<group>/` prefix changes nothing. */
  lemma ShareChangesNothing(topic: string, group: string, pattern: string)
    requires '/' !in group && !StartsWith(pattern, SHARE)
    ensures TopicMatches(topic, SHARE + group + "/" + pattern) <==> TopicMatches(topic, pattern)
  {
    hide Join, Split;
    var text := SHARE + group + "/" + pattern;
    assert text == "$share" + ['/'] + (group + ['/'] + pattern);
    SplitFirstPart("$share", group + ['/'] + pattern, '/');
    SplitFirstPart(group, pattern, '/');
    assert Split(text, '/') == ["$share", group] + Split(pattern, '/');
    assert Split(text, '/')[2..] == Split(pattern, '/');
    JoinOfSplit(pattern, '/');
  }

  /** A bare `>` is not translated: NATS reads it as everything, the adapter never matches it. */
  lemma BareTailIsLost(s: seq<string>)
    requires LegalSubject(s)
    ensures NatsMatch(s, [">"]) && !TopicMatches(Convert(Dotted(s)), Convert(Dotted([">"])))
  {
    hide Join, Split, Convert;
    var p := [">"];
    assert LegalPattern(p);
    NoShareToStrip(p);
    ConvertedLevels(s);
    ConvertedLevels(p);
    SubjectLevels(s);
    assert Levels(p)[0] == ">";
  }

  /** A subject that a pattern without final `>` should refuse, longer by one token than it allows. */
  function Longer(p: seq<string>): seq<string> {
    seq(|p|, k requires 0 <= k < |p| => if p[k] == "*" then "x" else p[k]) + ["x"]
  }

  /** A filter that starts with a wildcard matches no topic that starts with a dollar sign (section 4.7.2 of MQTT
      Version 5.0). */
  predicate ShutOut(s: seq<string>, q: seq<string>) {
    StartsWild(q) && s != [] && s[0] != "" && s[0][0] == '$'
  }

  predicate StartsWild(q: seq<string>) {
    q != [] && q[0] in {"*", ">"}
  }

  /** What a broker reads in a filter. */
  predicate BrokerReads(s: seq<string>, q: seq<string>) {
    Covers(s, q) && !ShutOut(s, q)
  }

  /** The adapter agrees with the broker on every subject exactly when the pattern's filter does not start with a
      wildcard, and ends in `>` or has no literal token that holds a hash sign. A share name without a filter is no
      subscription. */
  lemma AgreesWithBroker(p: seq<string>)
    requires LegalPattern(p) && TopicFilter(p) != []
    ensures var q := TopicFilter(p);
            (forall s :: LegalSubject(s) ==>
               (TopicMatches(Convert(Dotted(s)), Convert(Dotted(p))) <==> BrokerReads(s, q)))
            <==> !StartsWild(q) && (HasTail(q) || !HashInside(q))
  {
    hide TopicMatches, Convert, Dotted, Overmatches, Covers;
    var q := TopicFilter(p);
    forall s | LegalSubject(s)
      ensures TopicMatches(Convert(Dotted(s)), Convert(Dotted(p))) <==> AdapterMatches(s, p)
    {
      MatchesExactly(s, p);
    }
    if p == [">"] {
      PlainIsCovered();
    } else if StartsWild(q) {
      assert LegalPattern(q);
      DollarIsCovered(q);
    } else if HasTail(q) || !HashInside(q) {
      forall s ensures !Overmatches(s, q) { NoOvermatch(s, q); }
    } else {
      assert LegalPattern(q);
      LongerOvermatches(q);
    }
  }

  lemma PlainIsCovered()
    ensures LegalSubject(["x"]) && BrokerReads(["x"], [">"])
  {
    assert NatsMatch(["x"], [">"]);
  }

  /** A subject that starts with a dollar sign and that a filter starting with a wildcard names. */
  function Dollar(q: seq<string>): seq<string> {
    seq(|q|, k requires 0 <= k < |q| => if k == 0 then "$SYS" else if q[k] == "*" || q[k] == ">" then "x" else q[k])
  }

  lemma DollarIsCovered(q: seq<string>)
    requires LegalPattern(q) && StartsWild(q)
    ensures LegalSubject(Dollar(q)) && Covers(Dollar(q), q) && ShutOut(Dollar(q), q)
  {
    hide NatsMatch;
    var s := Dollar(q);
    assert "$SYS"[0] == '$' && SubjectToken("$SYS") && SubjectToken("x");
    assert forall k :: 0 <= k < |q| ==> SubjectToken(s[k]);
    NatsByPosition(s, q);
  }

  /** One such pair: the adapter calls a `*.x` callback for a message that a subscription to `$SYS.x` brings in. */
  lemma DollarIsMatched()
    ensures var s, p := ["$SYS", "x"], ["*", "x"];
            && LegalSubject(s) && LegalPattern(p)
            && TopicMatches(Convert(Dotted(s)), Convert(Dotted(p))) && !BrokerReads(s, TopicFilter(p))
  {
    hide TopicMatches, Convert, Dotted, Covers, Overmatches;
    var s, p := ["$SYS", "x"], ["*", "x"];
    assert LegalPattern(p);
    DollarIsCovered(p);
    assert Dollar(p) == s;
    MatchesExactly(s, p);
  }

  lemma NoOvermatch(s: seq<string>, p: seq<string>)
    requires HasTail(p) || !HashInside(p)
    ensures !Overmatches(s, p)
  {
  }

  lemma LongerOvermatches(p: seq<string>)
    requires LegalPattern(p) && !HasTail(p) && HashInside(p)
    ensures LegalSubject(Longer(p)) && Overmatches(Longer(p), p) && !Covers(Longer(p), p)
  {
    hide NatsMatch;
    var s := Longer(p);
    NatsByPosition(s[..|p|], p);
    NatsByPosition(s, p);
    assert SubjectToken("x");
    assert forall k :: 0 <= k < |p| ==> SubjectToken(s[k]);
  }
}
