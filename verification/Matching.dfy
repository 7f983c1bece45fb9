/** Glob patterns and the matching of names and labels against filters. */
module Matching {
  import opened Text
  import opened Selector

  /** A label holds one string or a list of them. */
  datatype LabelValue = One(text: string) | Many(texts: seq<string>)

  datatype Tag = Tag(key: string, value: LabelValue)

  /** The labels of an entity in order, each key once. */
  type Labels = tags: seq<Tag> | forall i, j :: 0 <= i < j < |tags| ==> tags[i].key != tags[j].key

  function Actual(v: LabelValue): seq<string> {
    match v
    case One(text) => [text]
    case Many(texts) => texts
  }

  // ----- what a pattern means -----

  /** The bracket that closes the class opened at `p[0]`: a leading `!`, and a `]` in first place, do not. */
  function ClassEnd(p: string): (e: nat)
    requires p != "" && p[0] == '['
    ensures 1 <= e <= |p|
    ensures e < |p| ==> e >= 2
  {
    var j := if |p| > 1 && p[1] == '!' then 2 else 1;
    var k := if j < |p| && p[j] == ']' then j + 1 else j;
    FindFrom(p, k, ']')
  }

  function FindFrom(p: string, k: nat, c: char): (e: nat)
    requires k <= |p|
    ensures k <= e <= |p|
    ensures e < |p| ==> p[e] == c
    decreases |p| - k
  {
    if k == |p| || p[k] == c then k else FindFrom(p, k + 1, c)
  }

  /** Single characters and `a-z` ranges. */
  predicate InRanges(c: char, body: string) {
    if body == "" then false
    else if |body| >= 3 && body[1] == '-' then (body[0] <= c <= body[2]) || InRanges(c, body[3..])
    else c == body[0] || InRanges(c, body[1..])
  }

  predicate InClass(c: char, body: string) {
    if body != "" && body[0] == '!' then !InRanges(c, body[1..]) else InRanges(c, body)
  }

  /** `*` stands for any run, `?` for one character, `[...]` for one of a class; all else for itself. */
  predicate Glob(s: string, p: string)
    decreases |p| + |s|
  {
    if p == "" then s == ""
    else if p[0] == '*' then Glob(s, p[1..]) || (s != "" && Glob(s[1..], p))
    else if s == "" then false
    else if p[0] == '?' then Glob(s[1..], p[1..])
    else if p[0] == '[' && ClassEnd(p) < |p| then
      InClass(s[0], p[1..ClassEnd(p)]) && Glob(s[1..], p[ClassEnd(p) + 1..])
    else s[0] == p[0] && Glob(s[1..], p[1..])
  }

  predicate IsGlob(p: string) {
    exists k :: 0 <= k < |p| && p[k] in {'*', '?', '['}
  }

  /** The literal fast path is sound: a pattern without meta characters matches itself and nothing else. */
  lemma {:induction false} GlobOfLiteral(s: string, p: string)
    requires !IsGlob(p)
    ensures Glob(s, p) <==> s == p
    decreases |p|
  {
    if p == "" {
    } else {
      assert p[0] !in {'*', '?', '['};
      forall k | 0 <= k < |p[1..]| ensures p[1..][k] !in {'*', '?', '['} {
        assert p[1..][k] == p[k + 1];
      }
      if s != "" {
        GlobOfLiteral(s[1..], p[1..]);
        assert s == [s[0]] + s[1..] && p == [p[0]] + p[1..];
      }
    }
  }

  lemma {:induction false} LiteralPrefix(s: string, a: string, q: string)
    requires !IsGlob(a)
    ensures Glob(s, a + q) <==> a <= s && Glob(s[|a|..], q)
    decreases |a|
  {
    if a == "" {
      assert a + q == q && s[0..] == s;
    } else {
      assert a[0] !in {'*', '?', '['};
      forall k | 0 <= k < |a[1..]| ensures a[1..][k] !in {'*', '?', '['} { assert a[1..][k] == a[k + 1]; }
      assert (a + q)[0] == a[0] && (a + q)[1..] == a[1..] + q;
      if s != "" {
        LiteralPrefix(s[1..], a[1..], q);
        assert a == [a[0]] + a[1..] && s == [s[0]] + s[1..];
        if a <= s { assert s[1..][|a| - 1..] == s[|a|..] && a[1..] <= s[1..]; }
        if s[0] == a[0] && a[1..] <= s[1..] { assert s[1..][|a| - 1..] == s[|a|..]; }
      }
    }
  }

  lemma {:induction false} StarSkips(s: string, q: string)
    ensures Glob(s, "*" + q) <==> exists k :: 0 <= k <= |s| && Glob(s[k..], q)
    decreases |s|
  {
    var p := "*" + q;
    assert p[0] == '*' && p[1..] == q && s[0..] == s;
    if s != "" {
      StarSkips(s[1..], q);
      if exists k :: 0 <= k <= |s[1..]| && Glob(s[1..][k..], q) {
        var k :| 0 <= k <= |s[1..]| && Glob(s[1..][k..], q);
        assert s[1..][k..] == s[k + 1..];
      }
      if k :| 0 < k <= |s| && Glob(s[k..], q) {
        assert s[1..][k - 1..] == s[k..];
      }
    }
  }

  /** A star between two literals, either of them empty: the text begins with the one and ends with the other, and they
      do not overlap. */
  lemma StarBetween(s: string, a: string, b: string)
    requires !IsGlob(a) && !IsGlob(b)
    ensures Glob(s, a + "*" + b) <==> |a| + |b| <= |s| && StartsWith(s, a) && EndsWith(s, b)
  {
    hide Glob, IsGlob;
    assert a + "*" + b == a + ("*" + b);
    LiteralPrefix(s, a, "*" + b);
    if a <= s {
      var t := s[|a|..];
      StarSkips(t, b);
      forall k | 0 <= k <= |t| ensures Glob(t[k..], b) <==> t[k..] == b { GlobOfLiteral(t[k..], b); }
      if k :| 0 <= k <= |t| && t[k..] == b { assert t[k..] == s[|s| - |b|..]; }
      if |a| + |b| <= |s| && EndsWith(s, b) { assert t[|t| - |b|..] == s[|s| - |b|..]; }
    }
  }

  lemma {:induction false} FindsFirst(p: string, k: nat, e: nat, c: char)
    requires k <= e < |p| && p[e] == c && forall i :: k <= i < e ==> p[i] != c
    ensures FindFrom(p, k, c) == e
    decreases e - k
  {
    if k == e {
    } else {
      FindsFirst(p, k + 1, e, c);
    }
  }

  /** A class stands for one of its characters, or with `!` in front for one that is none of them. */
  lemma ClassTakesOne(s: string, body: string, negated: bool, q: string)
    requires body != "" && body[0] != '!' && ']' !in body && '-' !in body
    ensures Glob(s, (if negated then "[!" else "[") + body + "]" + q) <==>
            s != "" && (s[0] in body <==> !negated) && Glob(s[1..], q)
  {
    hide InRanges;
    var front := if negated then "[!" else "[";
    var p, e := front + body + "]" + q, |front| + |body|;
    assert p[|front|] == body[0] && p[e] == ']' && p[e + 1..] == q;
    forall i | |front| <= i < e ensures p[i] != ']' { assert p[i] == body[i - |front|]; }
    FindsFirst(p, |front|, e, ']');
    assert ClassEnd(p) == e;
    assert p[1..e] == if negated then "!" + body else body;
    assert ("!" + body)[1..] == body;
    if s != "" { PlainClass(s[0], body); }
  }

  lemma InOneRange(c: char, low: char, high: char)
    ensures InRanges(c, [low, '-', high]) <==> low <= c <= high
  {
    assert [low, '-', high][3..] == [];
  }

  lemma GlobFirst(s: string, p: string)
    requires p != "" && p[0] == '[' && ClassEnd(p) < |p|
    ensures Glob(s, p) <==> s != "" && InClass(s[0], p[1..ClassEnd(p)]) && Glob(s[1..], p[ClassEnd(p) + 1..])
  {
    hide ClassEnd, InClass;
  }

  /** A question mark stands for any one character, and a class with a range for one within the range. */
  lemma OneOfRange(s: string, low: char, high: char, q: string)
    requires low != '!' && low != ']' && high != ']'
    ensures Glob(s, "?" + q) <==> s != "" && Glob(s[1..], q)
    ensures Glob(s, "[" + [low, '-', high] + "]" + q) <==> s != "" && low <= s[0] <= high && Glob(s[1..], q)
  {
    var body := [low, '-', high];
    var p := "[" + body + "]" + q;
    assert Glob(s, "?" + q) <==> s != "" && Glob(s[1..], q) by {
      hide ClassEnd, InClass;
      assert ("?" + q)[1..] == q;
    }
    hide Glob, InRanges;
    assert p[1] == low && p[2] == '-' && p[3] == high && p[4] == ']' && p[5..] == q && p[1..4] == body;
    FindsFirst(p, 1, 4, ']');
    assert ClassEnd(p) == 4;
    GlobFirst(s, p);
    if s != "" { InOneRange(s[0], low, high); }
  }

  lemma {:induction false} PlainClass(c: char, body: string)
    requires '-' !in body
    ensures InRanges(c, body) <==> c in body
  {
    if body == "" {
    } else {
      PlainClass(c, body[1..]);
      assert body == [body[0]] + body[1..];
    }
  }

  // ----- what a filter means -----

  ghost predicate KeyAccepts(kf: KeyFilter, found: Option<LabelValue>) {
    found.Some? && exists v, a :: v in kf.values && a in Actual(found.value) && Glob(a, v)
  }

  function Find(tags: seq<Tag>, key: string): Option<LabelValue> {
    if tags == [] then None else if tags[0].key == key then Some(tags[0].value) else Find(tags[1..], key)
  }

  /** `labels.get(key)`. */
  function Lookup(labels: Option<Labels>, key: string): Option<LabelValue> {
    if labels.None? then None else Find(labels.value, key)
  }

  lemma {:induction false} FindsTheTag(tags: seq<Tag>, key: string, value: LabelValue)
    requires forall i, j :: 0 <= i < j < |tags| ==> tags[i].key != tags[j].key
    ensures Find(tags, key) == Some(value) <==> Tag(key, value) in tags
  {
    if tags == [] {
    } else {
      FindsTheTag(tags[1..], key, value);
      assert tags == [tags[0]] + tags[1..];
    }
  }

  ghost predicate Accepts(f: Filter, name: string, labels: Option<Labels>) {
    && (f.nameMatch.Some? ==> Glob(name, f.nameMatch.value))
    && forall kf :: kf in f.keyFilters ==> KeyAccepts(kf, Lookup(labels, kf.key))
  }

  /** A label's only value, or one of its values. */
  predicate HasValue(value: LabelValue, a: string) {
    match value
    case One(text) => a == text
    case Many(texts) => a in texts
  }

  /** No value of a label with the filter's key is matched by one of the filter's patterns. */
  ghost predicate NothingFits(kf: KeyFilter, labels: Option<Labels>) {
    labels.Some? ==>
      forall tag, v, a :: tag in labels.value && tag.key == kf.key && v in kf.values && HasValue(tag.value, a) ==>
        !Glob(a, v)
  }

  lemma KeyRefused(kf: KeyFilter, labels: Option<Labels>)
    ensures !KeyAccepts(kf, Lookup(labels, kf.key)) <==> NothingFits(kf, labels)
  {
    hide Glob, Find;
    if labels.Some? {
      forall value ensures Find(labels.value, kf.key) == Some(value) <==> Tag(kf.key, value) in labels.value {
        FindsTheTag(labels.value, kf.key, value);
      }
      forall tag | tag in labels.value && tag.key == kf.key ensures tag == Tag(kf.key, tag.value) { }
    }
  }

  /** An entity is refused for its name or for one key filter that none of its labels fits. */
  lemma RefusedForReason(f: Filter, name: string, labels: Option<Labels>)
    ensures !Accepts(f, name, labels) <==>
            || (f.nameMatch.Some? && !Glob(name, f.nameMatch.value))
            || exists k :: 0 <= k < |f.keyFilters| && NothingFits(f.keyFilters[k], labels)
  {
    hide Glob, KeyAccepts, Lookup, NothingFits;
    forall kf: KeyFilter ensures !KeyAccepts(kf, Lookup(labels, kf.key)) <==> NothingFits(kf, labels) {
      KeyRefused(kf, labels);
    }
    forall kf: KeyFilter ensures kf in f.keyFilters <==> exists k :: 0 <= k < |f.keyFilters| && f.keyFilters[k] == kf {
    }
  }

  /** `_is_glob`. */
  method HasMeta(p: string) returns (r: bool)
    ensures r <==> IsGlob(p)
  {
    for k := 0 to |p|
      invariant forall i :: 0 <= i < k ==> p[i] !in {'*', '?', '['}
    {
      if p[k] in {'*', '?', '['} { return true; }
    }
    return false;
  }

  /** `KeyFilter.matches`, with its literal fast path. */
  method KeyFilterMatches(kf: KeyFilter, found: Option<LabelValue>) returns (r: bool)
    ensures r <==> KeyAccepts(kf, found)
  {
    if found.None? { return false; }
    var actual := Actual(found.value);
    for i := 0 to |kf.values|
      invariant forall v, a :: v in kf.values[..i] && a in actual ==> !Glob(a, v)
    {
      var pattern := kf.values[i];
      assert kf.values[..i + 1] == kf.values[..i] + [pattern];
      var meta := HasMeta(pattern);
      if meta {
        for j := 0 to |actual|
          invariant forall a :: a in actual[..j] ==> !Glob(a, pattern)
        {
          if Glob(actual[j], pattern) { return true; }
          assert actual[..j + 1] == actual[..j] + [actual[j]];
        }
        assert actual[..|actual|] == actual;
      } else {
        forall a ensures Glob(a, pattern) <==> a == pattern { GlobOfLiteral(a, pattern); }
        if pattern in actual {
          assert Glob(pattern, pattern);
          return true;
        }
      }
    }
    assert kf.values[..|kf.values|] == kf.values;
    return false;
  }

  /** `Filter.matches`, with its literal fast path. */
  method FilterMatches(f: Filter, name: string, labels: Option<Labels>) returns (r: bool)
    ensures r <==> Accepts(f, name, labels)
  {
    if f.nameMatch.Some? {
      var pattern := f.nameMatch.value;
      var meta := HasMeta(pattern);
      if meta {
        if !Glob(name, pattern) { return false; }
      } else {
        GlobOfLiteral(name, pattern);
        if name != pattern { return false; }
      }
    }
    for i := 0 to |f.keyFilters|
      invariant forall kf :: kf in f.keyFilters[..i] ==> KeyAccepts(kf, Lookup(labels, kf.key))
    {
      var kf := f.keyFilters[i];
      var ok := KeyFilterMatches(kf, Lookup(labels, kf.key));
      if !ok { return false; }
      assert f.keyFilters[..i + 1] == f.keyFilters[..i] + [kf];
    }
    assert f.keyFilters[..|f.keyFilters|] == f.keyFilters;
    return true;
  }
}
