/** The selector language as a grammar on the text, and the parser as its decision procedure: a text is accepted with a
    tree if and only if it spells the tree. */
module SelectorGrammar {
  import opened Text
  import opened Selector
  import opened SelectorProofs

  // ----- the grammar -----

  const DIGITS := "0123456789"
  const LOWER := "abcdefghijklmnopqrstuvwxyz"
  const UPPER := "ABCDEFGHIJKLMNOPQRSTUVWXYZ"

  /** The characters of a label key. */
  predicate KeyChar(c: char) {
    c in DIGITS || c in LOWER || c in UPPER || c in "_-."
  }

  /** The trimmed text is the value; it is not empty and holds no bracket. */
  predicate SpellsValue(text: string, v: string) {
    v == Strip(text) && v != "" && '[' !in v && ']' !in v
  }

  /** The right-hand side of a key: one value, or a bracketed list of values between commas, with white space around
      each of them, around the list and inside its brackets. */
  predicate SpellsValues(text: string, vs: seq<string>) {
    var t := Strip(text);
    if t != "" && t[0] == '[' then
      && t[|t| - 1] == ']'
      && var items := Split(Strip(t[1..|t| - 1]), ',');
      && |vs| == |items|
      && forall k :: 0 <= k < |items| ==> SpellsValue(items[k], vs[k])
    else |vs| == 1 && SpellsValue(text, vs[0])
  }

  /** Position `k` is the first colon outside brackets. */
  predicate SplitsAt(t: string, k: int) {
    0 <= k < |t| && t[k] == ':' && Reads(t[..k], 0, {':'}) == Some(0)
  }

  /** A keyed term: a key, white space around it, a colon and the values. */
  ghost predicate SpellsKey(t: string, kf: KeyFilter) {
    && kf.key != "" && (forall i :: 0 <= i < |kf.key| ==> KeyChar(kf.key[i]))
    && exists k :: SplitsAt(t, k) && kf.key == Strip(t[..k]) && SpellsValues(t[k + 1..], kf.values)
  }

  /** No colon stands outside the brackets of the term. */
  predicate IsBare(t: string) {
    Reads(t, 0, {':'}).Some?
  }

  /** The bare terms but for `*`, trimmed, in order. */
  function NamesOf(ts: seq<string>): seq<string> {
    if ts == [] then []
    else
      var t := Strip(ts[0]);
      (if IsBare(t) && t != "*" then [t] else []) + NamesOf(ts[1..])
  }

  /** The terms with a colon, trimmed, in order. */
  function KeyedOf(ts: seq<string>): seq<string> {
    if ts == [] then []
    else
      var t := Strip(ts[0]);
      (if IsBare(t) then [] else [t]) + KeyedOf(ts[1..])
  }

  /** The terms between the commas: none is blank, at most one is a name, and the keyed ones are the key filters. */
  ghost predicate SpellsTerms(ts: seq<string>, f: Filter) {
    && (forall k :: 0 <= k < |ts| ==> Strip(ts[k]) != "")
    && |NamesOf(ts)| <= 1
    && f.nameMatch == (if NamesOf(ts) == [] then None else Some(NamesOf(ts)[0]))
    && |KeyedOf(ts)| == |f.keyFilters|
    && forall k :: 0 <= k < |f.keyFilters| ==> SpellsKey(KeyedOf(ts)[k], f.keyFilters[k])
  }

  /** The body is cut into terms at its commas outside brackets, and the brackets of each term balance. */
  ghost predicate CutsInto(body: string, ts: seq<string>) {
    |ts| >= 1 && body == Join(ts, ',') && Clean(ts, {','})
  }

  /** A filter body is blank, or it is terms. */
  ghost predicate SpellsBody(body: string, f: Filter) {
    if AllSpace(body) then f == Filter(None, [])
    else exists ts :: CutsInto(body, ts) && SpellsTerms(ts, f)
  }

  /** From `start` to `after`: white space up to `from`; the name; a gap of white space that begins with a blank or a
      tab, up to `open`; and the body in parentheses, its brackets balanced and no closing parenthesis outside them. */
  ghost predicate ScopeStands(s: string, start: nat, from: nat, open: nat, after: nat, name: string, f: Filter) {
    && start <= from && from + |name| <= open < after - 1 < |s|
    && AllSpace(s[start..from])
    && s[from..from + |name|] == name
    && AllSpace(s[from + |name|..open])
    && (from + |name| < open ==> s[from + |name|] == ' ' || s[from + |name|] == '\t')
    && s[open] == '(' && s[after - 1] == ')'
    && Reads(s[open + 1..after - 1], 0, {')'}) == Some(0)
    && SpellsBody(s[open + 1..after - 1], f)
  }

  /** The text from `start` up to `after` is a scope. */
  ghost predicate SpellsScope(s: string, start: nat, after: nat, name: string, f: Filter) {
    && (name == "device" || name == "function" || name == "event")
    && exists from, open :: ScopeStands(s, start, from, open, after, name, f)
  }

  /** One scope, and white space after it. */
  ghost predicate SpellsSingle(s: string, name: string, f: Filter) {
    exists i: nat | i <= |s| :: SpellsScope(s, 0, i, name, f) && AllSpace(s[i..])
  }

  /** A device scope, a dot and another scope, with white space before each of the three and at the end. */
  ghost predicate SpellsChain(s: string, f: Filter, name: string, g: Filter) {
    exists i: nat, dot: nat, k: nat | i <= dot < k <= |s| ::
      && SpellsScope(s, 0, i, "device", f)
      && AllSpace(s[i..dot]) && s[dot] == '.'
      && SpellsScope(s, dot + 1, k, name, g)
      && AllSpace(s[k..])
  }

  /** The text spells the tree. */
  ghost predicate Spells(s: string, a: Selector) {
    && a.raw == s
    && match a.scope
       case DeviceOnly =>
         a.device.Some? && a.function_.None? && a.event.None? && SpellsSingle(s, "device", a.device.value)
       case FunctionOnly =>
         a.device.None? && a.function_.Some? && a.event.None? && SpellsSingle(s, "function", a.function_.value)
       case EventOnly =>
         a.device.None? && a.function_.None? && a.event.Some? && SpellsSingle(s, "event", a.event.value)
       case DeviceFunction =>
         && a.device.Some? && a.function_.Some? && a.event.None?
         && SpellsChain(s, a.device.value, "function", a.function_.value)
       case DeviceEvent =>
         && a.device.Some? && a.function_.None? && a.event.Some?
         && SpellsChain(s, a.device.value, "event", a.event.value)
  }

  // ----- values and keys -----

  lemma {:induction false} ItemsAreValues(raws: seq<string>, base: int, out: seq<string>, vs: seq<string>)
    ensures ParseItems(raws, base, out) == Ok(vs) <==>
            && |vs| == |out| + |raws| && vs[..|out|] == out
            && forall k :: 0 <= k < |raws| ==> SpellsValue(raws[k], vs[|out| + k])
    decreases |raws|
  {
    hide Strip;
    if raws == [] {
      assert |vs| == |out| ==> vs[..|out|] == vs;
    } else {
      var v := Strip(raws[0]);
      ItemsAreValues(raws[1..], base, out + [v], vs);
      if |vs| == |out| + |raws| {
        assert vs[..|out| + 1] == vs[..|out|] + [vs[|out|]];
        forall k | 0 < k < |raws| && SpellsValue(raws[1..][k - 1], vs[|out| + 1 + (k - 1)])
          ensures SpellsValue(raws[k], vs[|out| + k])
        {
        }
        forall k | 0 <= k < |raws| - 1 && SpellsValue(raws[k + 1], vs[|out| + (k + 1)])
          ensures SpellsValue(raws[1..][k], vs[|out + [v]| + k])
        {
        }
      }
    }
  }

  lemma ValuesAreSpelled(value: string, base: int, vs: seq<string>)
    ensures ParseValuePart(value, base) == Ok(vs) <==> SpellsValues(value, vs)
  {
    hide Strip, Split, ParseItems;
    var v := Strip(value);
    if v != "" && v[0] == '[' {
      if v[|v| - 1] == ']' {
        var inner := Strip(v[1..|v| - 1]);
        ItemsAreValues(Split(inner, ','), base, [], vs);
        assert vs[..0] == [];
        if inner == "" {
          StripIsTrim("");
          SplitOfPart("", ',');
          assert |vs| == 1 ==> !SpellsValue("", vs[0]);
        }
      }
    } else {
      assert |vs| == 1 ==> vs == [vs[0]];
    }
  }

  lemma Digits(c: char)
    ensures c in DIGITS <==> '0' <= c <= '9'
  {
    if '0' <= c <= '9' { assert DIGITS[c as int - '0' as int] == c; }
  }

  lemma Lower(c: char)
    ensures c in LOWER <==> 'a' <= c <= 'z'
  {
    if 'a' <= c <= 'z' { assert LOWER[c as int - 'a' as int] == c; }
  }

  lemma Upper(c: char)
    ensures c in UPPER <==> 'A' <= c <= 'Z'
  {
    if 'A' <= c <= 'Z' { assert UPPER[c as int - 'A' as int] == c; }
  }

  lemma KeyChars(c: char)
    ensures IsKeyChar(c) <==> KeyChar(c)
  {
    Digits(c);
    Lower(c);
    Upper(c);
  }

  // ----- terms -----

  /** Where the colon search stops is the one place at which a balanced term splits. */
  lemma ColonSplits(t: string, colon: nat)
    requires Reads(t, 0, {','}).Some? && ColonFrom(t, 0, 0) == colon
    ensures SplitsAt(t, colon) && forall k :: SplitsAt(t, k) ==> k == colon
  {
    hide Reads, ColonFrom;
    assert t == t[..colon] + t[colon..] && t[0..colon] == t[..colon];
    ReadsConcat(t[..colon], t[colon..], 0, {','});
    ReadsStops(t[..colon], 0, {}, {','});
    ColonFound(t, 0, 0, colon);
    forall k | SplitsAt(t, k) ensures k == colon {
      assert t[0..k] == t[..k];
      ReadsStops(t[..k], 0, {}, {':'});
      ColonFound(t, 0, 0, k);
    }
  }

  lemma KeyedIsSpelled(t: string, colon: nat, at: int, kf: KeyFilter)
    requires Reads(t, 0, {','}).Some? && ColonFrom(t, 0, 0) == colon
    ensures ParseKeyed(t, colon, at) == Ok(kf) <==> SpellsKey(t, kf)
  {
    hide Reads, ColonFrom, Strip, IsKeyChar, KeyChar, SplitsAt, SpellsValues, ParseValuePart;
    ColonSplits(t, colon);
    forall c ensures IsKeyChar(c) <==> KeyChar(c) { KeyChars(c); }
    assert SplitsAt(t, colon);
    ValuesAreSpelled(t[colon + 1..], at + colon + 1, kf.values);
  }

  lemma BareIffNoColon(t: string)
    requires Reads(t, 0, {','}).Some?
    ensures IsBare(t) <==> ColonFrom(t, 0, 0) == -1
  {
    hide Reads, ColonFrom;
    assert t[0..] == t;
    ReadsStops(t, 0, {}, {','});
    ColonAbsent(t, 0, 0);
  }

  /** What a term contributes, by what it is. */
  lemma TermIsSpelled(term: Term, sofar: Filter)
    requires Reads(term.text, 0, {','}) == Some(0)
    ensures var t, r := Strip(term.text), ParseTerm(term, sofar);
            && (t == "" ==> r.Err?)
            && (t != "" && IsBare(t) && t == "*" ==> r == Ok(sofar))
            && (t != "" && IsBare(t) && t != "*" ==>
                  if sofar.nameMatch.Some? then r.Err? else r == Ok(sofar.(nameMatch := Some(t))))
            && (t != "" && !IsBare(t) ==>
                  && (forall kf :: SpellsKey(t, kf) ==> r == Ok(sofar.(keyFilters := sofar.keyFilters + [kf])))
                  && (r.Ok? ==> exists kf :: SpellsKey(t, kf)))
  {
    hide Reads, ColonFrom, Strip, Leading, ParseKeyed, SpellsKey, IsBare;
    var t := Strip(term.text);
    ReadsStrip(term.text, {','});
    BareIffNoColon(t);
    var colon := ColonFrom(t, 0, 0);
    if t != "" && colon >= 0 {
      var at := term.offset + Leading(term.text);
      forall kf ensures ParseKeyed(t, colon, at) == Ok(kf) <==> SpellsKey(t, kf) {
        KeyedIsSpelled(t, colon, at, kf);
      }
      if ParseKeyed(t, colon, at).Ok? { assert SpellsKey(t, ParseKeyed(t, colon, at).value); }
    }
  }

  /** The terms turn the filter built so far into `f`. */
  ghost predicate Extends(ts: seq<string>, sofar: Filter, f: Filter) {
    && (forall k :: 0 <= k < |ts| ==> Strip(ts[k]) != "")
    && (if NamesOf(ts) == [] then f.nameMatch == sofar.nameMatch
        else sofar.nameMatch.None? && |NamesOf(ts)| == 1 && f.nameMatch == Some(NamesOf(ts)[0]))
    && |f.keyFilters| == |sofar.keyFilters| + |KeyedOf(ts)|
    && f.keyFilters[..|sofar.keyFilters|] == sofar.keyFilters
    && SpellKeys(KeyedOf(ts), f.keyFilters, |sofar.keyFilters|)
  }

  /** The keyed terms are the key filters from the `n`-th on, in order. */
  ghost predicate SpellKeys(keyed: seq<string>, kfs: seq<KeyFilter>, n: nat)
    requires n + |keyed| == |kfs|
  {
    forall k :: 0 <= k < |keyed| ==> SpellsKey(keyed[k], kfs[n + k])
  }

  lemma SpellKeysRest(t: string, rest: seq<string>, kfs: seq<KeyFilter>, n: nat)
    requires n + 1 + |rest| == |kfs|
    ensures SpellKeys([t] + rest, kfs, n) <==> SpellsKey(t, kfs[n]) && SpellKeys(rest, kfs, n + 1)
  {
    hide SpellsKey;
    var keyed := [t] + rest;
    if SpellKeys(keyed, kfs, n) {
      assert SpellsKey(keyed[0], kfs[n + 0]);
      forall k | 0 <= k < |rest| ensures SpellsKey(rest[k], kfs[n + 1 + k]) {
        assert SpellsKey(keyed[k + 1], kfs[n + (k + 1)]);
      }
    }
  }

  lemma PrefixGrows<T>(a: seq<T>, b: seq<T>, n: nat)
    requires n == |b| < |a|
    ensures a[..n] == b <==> a[..n + 1] == b + [a[n]]
  {
    assert a[..n + 1] == a[..n] + [a[n]];
    if a[..n + 1] == b + [a[n]] { assert a[..n] == a[..n + 1][..n] == b; }
  }

  /** A first term that is blank, `*`, a name or keyed. */
  lemma ExtendsBlank(ts: seq<string>, sofar: Filter, f: Filter)
    requires ts != [] && Strip(ts[0]) == ""
    ensures !Extends(ts, sofar, f)
  {
    hide Strip;
  }

  lemma ExtendsRest(ts: seq<string>)
    requires ts != [] && Strip(ts[0]) != ""
    ensures (forall k :: 0 <= k < |ts| ==> Strip(ts[k]) != "") <==>
            (forall k :: 0 <= k < |ts[1..]| ==> Strip(ts[1..][k]) != "")
  {
    hide Strip;
    if forall k :: 0 <= k < |ts[1..]| ==> Strip(ts[1..][k]) != "" {
      forall k | 0 <= k < |ts| ensures Strip(ts[k]) != "" {
        if k > 0 { assert ts[k] == ts[1..][k - 1]; }
      }
    }
  }

  lemma ExtendsBare(ts: seq<string>, sofar: Filter, f: Filter)
    requires ts != [] && Strip(ts[0]) != "" && IsBare(Strip(ts[0]))
    ensures Extends(ts, sofar, f) <==>
            var t := Strip(ts[0]);
            if t == "*" then Extends(ts[1..], sofar, f)
            else sofar.nameMatch.None? && Extends(ts[1..], sofar.(nameMatch := Some(t)), f)
  {
    hide Strip, IsBare, SpellsKey;
    var t := Strip(ts[0]);
    ExtendsRest(ts);
    assert KeyedOf(ts) == KeyedOf(ts[1..]);
    if t != "*" {
      assert NamesOf(ts) == [t] + NamesOf(ts[1..]);
    } else {
      assert NamesOf(ts) == NamesOf(ts[1..]);
    }
  }

  lemma ExtendsKeyed(ts: seq<string>, sofar: Filter, f: Filter)
    requires ts != [] && Strip(ts[0]) != "" && !IsBare(Strip(ts[0]))
    ensures Extends(ts, sofar, f) <==>
            && |f.keyFilters| > |sofar.keyFilters|
            && SpellsKey(Strip(ts[0]), f.keyFilters[|sofar.keyFilters|])
            && var kf := f.keyFilters[|sofar.keyFilters|];
            Extends(ts[1..], sofar.(keyFilters := sofar.keyFilters + [kf]), f)
  {
    hide Strip, IsBare, SpellsKey;
    var t, n := Strip(ts[0]), |sofar.keyFilters|;
    var keyed, rest := KeyedOf(ts), KeyedOf(ts[1..]);
    ExtendsRest(ts);
    assert NamesOf(ts) == NamesOf(ts[1..]);
    assert keyed == [t] + rest;
    hide NamesOf, KeyedOf, SpellKeys;
    if |f.keyFilters| == n + |keyed| {
      PrefixGrows(f.keyFilters, sofar.keyFilters, n);
      SpellKeysRest(t, rest, f.keyFilters, n);
    }
  }

  /** The term loop: clean terms extend the filter built so far to exactly the filters it can be extended to. */
  lemma {:induction false} TermsAreSpelled(ts: seq<string>, offset: int, sofar: Filter, f: Filter)
    requires Clean(ts, {','})
    ensures ParseTerms(Placed(ts, offset), sofar) == Ok(f) <==> Extends(ts, sofar, f)
    decreases |ts|
  {
    hide Reads, Strip, SpellsKey, ParseTerm, IsBare, Extends;
    if ts == [] {
      ExtendsNothing(sofar, f);
    } else {
      var t, term, rest := Strip(ts[0]), Term(ts[0], offset), ts[1..];
      var next := ParseTerm(term, sofar);
      assert Placed(ts, offset)[1..] == Placed(rest, offset + |ts[0]| + 1);
      assert ParseTerms(Placed(ts, offset), sofar) ==
             if next.Err? then Err(next.kind, next.position)
             else ParseTerms(Placed(rest, offset + |ts[0]| + 1), next.value);
      hide ParseTerms, Placed;
      TermIsSpelled(term, sofar);
      if next.Ok? { TermsAreSpelled(rest, offset + |ts[0]| + 1, next.value, f); }
      if t == "" {
        ExtendsBlank(ts, sofar, f);
      } else if IsBare(t) {
        ExtendsBare(ts, sofar, f);
      } else {
        ExtendsKeyed(ts, sofar, f);
        if next.Ok? {
          var kf :| SpellsKey(t, kf);
          assert next.value == sofar.(keyFilters := sofar.keyFilters + [kf]);
          if Extends(rest, next.value, f) { ExtendsKeeps(rest, next.value, f, |sofar.keyFilters|); }
        }
      }
    }
  }

  lemma ExtendsKeeps(ts: seq<string>, sofar: Filter, f: Filter, k: nat)
    requires Extends(ts, sofar, f) && k < |sofar.keyFilters|
    ensures k < |f.keyFilters| && f.keyFilters[k] == sofar.keyFilters[k]
  {
    assert f.keyFilters[..|sofar.keyFilters|][k] == f.keyFilters[k];
  }

  lemma ExtendsNothing(sofar: Filter, f: Filter)
    ensures Extends([], sofar, f) <==> f == sofar
  {
    assert f.keyFilters[..|f.keyFilters|] == f.keyFilters;
  }

  // ----- one filter body -----

  lemma ExtendsNone(ts: seq<string>, f: Filter)
    ensures Extends(ts, Filter(None, []), f) <==> SpellsTerms(ts, f)
  {
    hide Strip, SpellsKey, NamesOf, KeyedOf;
    assert f.keyFilters[..0] == [];
    if |KeyedOf(ts)| == |f.keyFilters| && SpellKeys(KeyedOf(ts), f.keyFilters, 0) {
      forall k | 0 <= k < |f.keyFilters| ensures SpellsKey(KeyedOf(ts)[k], f.keyFilters[k]) {
        assert SpellsKey(KeyedOf(ts)[k], f.keyFilters[0 + k]);
      }
    }
  }

  lemma CutParses(body: string, base: int, ts: seq<string>, f: Filter)
    requires CutsInto(body, ts)
    ensures SplitFrom(body, base, 0, 0, 0, []) == Ok(Placed(ts, base))
    ensures ParseTerms(Placed(ts, base), Filter(None, [])) == Ok(f) <==> SpellsTerms(ts, f)
  {
    hide Reads, SplitFrom, ParseTerms, Join, Placed, SpellsTerms, Extends, Clean;
    assert body[0..] == body;
    SplitOfJoined(body, base, 0, [], ts);
    assert [] + Placed(ts, base) == Placed(ts, base);
    TermsAreSpelled(ts, base, Filter(None, []), f);
    ExtendsNone(ts, f);
  }

  lemma BlankIffStripped(s: string)
    ensures AllSpace(s) <==> Strip(s) == ""
  {
    hide IsSpace, Strip, Leading;
    StripIsTrim(s);
    var n, m := Leading(s), |Strip(s)|;
    if m == 0 {
      assert s == s[..n] + s[n..];
    } else {
      assert Strip(s)[0] == s[n];
    }
  }

  lemma SpaceHasNoStops(s: string, stops: set<char>)
    requires AllSpace(s) && stops <= {',', ':', ')'}
    ensures Reads(s, 0, stops) == Some(0)
  {
    SpacePlain(s);
    ReadsPlain(s, 0, stops);
  }

  /** A lone star is a term that adds nothing. */
  lemma StarIsSpelled(body: string)
    requires Strip(body) == "*"
    ensures CutsInto(body, [body]) && SpellsTerms([body], Filter(None, []))
  {
    hide Reads, Strip, SpellsKey;
    ReadsStrip(body, {','});
    ReadsPlain("*", 0, {','});
    ReadsPlain("*", 0, {':'});
    assert Reads("*", 0, {','}) == Some(0) && IsBare("*");
    JoinOne(body, ',');
    assert [body][1..] == [];
    assert NamesOf([body]) == [] && KeyedOf([body]) == [];
  }

  /** A filter body parses to a filter if and only if it spells it. */
  lemma BodyIsSpelled(body: string, base: int, f: Filter)
    ensures ParseFilterBody(body, base) == Ok(f) <==> SpellsBody(body, f)
  {
    hide Reads, SplitFrom, ParseTerms, Placed, SpellsTerms, Strip, AllSpace, Clean, Join;
    BlankIffStripped(body);
    if Strip(body) != "" {
      if Strip(body) == "*" { StarIsSpelled(body); }
      if SplitFrom(body, base, 0, 0, 0, []).Ok? {
        assert body[0..0] == "" && body[0..] == body;
        ReadsPlain("", 0, {','});
        var ts := SplitAccepts(body, base, 0, 0, 0, []);
        assert CutsInto(body, ts);
        CutParses(body, base, ts, f);
        CutParses(body, base, ts, Filter(None, []));
      }
      forall ts | CutsInto(body, ts)
        ensures SplitFrom(body, base, 0, 0, 0, []) == Ok(Placed(ts, base))
        ensures ParseTerms(Placed(ts, base), Filter(None, [])) == Ok(f) <==> SpellsTerms(ts, f)
        ensures ParseTerms(Placed(ts, base), Filter(None, [])) == Ok(Filter(None, [])) <==>
                SpellsTerms(ts, Filter(None, []))
      {
        CutParses(body, base, ts, f);
        CutParses(body, base, ts, Filter(None, []));
      }
    }
  }

  lemma BodyReads(body: string, base: int)
    requires ParseFilterBody(body, base).Ok?
    ensures Reads(body, 0, {}).Some?
  {
    hide Reads, SplitFrom, ParseTerms, Strip;
    ReadsStrip(body, {});
    assert body[0..] == body;
    SplitComplaints(body, base, 0, 0, 0, []);
    ReadsPlain("", 0, {});
    ReadsPlain("*", 0, {});
  }

  // ----- one scope -----

  lemma {:induction false} SkipSpaceOver(s: string, i: nat)
    requires i <= |s|
    ensures AllSpace(s[i..SkipSpace(s, i)])
    decreases |s| - i
  {
    hide IsSpace;
    if i < |s| && IsSpace(s[i]) {
      SkipSpaceOver(s, i + 1);
      var r := SkipSpace(s, i);
      assert s[i..r] == [s[i]] + s[i + 1..r];
    }
  }

  lemma {:induction false} SkipSpaceTo(s: string, i: nat, j: nat)
    requires i <= j <= |s| && AllSpace(s[i..j]) && (j < |s| ==> !IsSpace(s[j]))
    ensures SkipSpace(s, i) == j
    decreases j - i
  {
    hide IsSpace;
    if i < j {
      assert s[i..j][0] == s[i] && s[i..j][1..] == s[i + 1..j];
      SkipSpaceTo(s, i + 1, j);
    }
  }

  lemma {:induction false} SkipNameStops(s: string, i: nat)
    requires i <= |s|
    ensures SkipName(s, i) < |s| ==> EndsName(s[SkipName(s, i)])
    decreases |s| - i
  {
    if i < |s| && !EndsName(s[i]) { SkipNameStops(s, i + 1); }
  }

  lemma {:induction false} SkipNameTo(s: string, i: nat, name: string)
    requires i + |name| < |s| && s[i..i + |name|] == name && EndsName(s[i + |name|])
    requires forall k :: 0 <= k < |name| ==> !EndsName(name[k])
    ensures SkipName(s, i) == i + |name|
    decreases |name|
  {
    if name == "" {
    } else {
      assert s[i] == name[0] && s[i + 1..i + |name|] == name[1..];
      SkipNameTo(s, i + 1, name[1..]);
    }
  }

  lemma NotSpace()
    ensures !IsSpace('(') && !IsSpace('.')
  {
  }

  lemma ScopeSpells(s: string, start: nat)
    requires start <= |s| && ConsumeScope(s, start).Ok?
    ensures var r := ConsumeScope(s, start).value; SpellsScope(s, start, r.after, r.name, r.filter)
  {
    hide ParseFilterBody, Reads, SpellsBody, IsSpace, CloseFrom, SkipSpace, SkipName, AllSpace;
    var from := SkipSpace(s, start);
    var nameEnd := SkipName(s, from);
    var open := SkipSpace(s, nameEnd);
    var close := CloseFrom(s, open + 1, 0, -1);
    var r := ConsumeScope(s, start).value;
    SkipSpaceOver(s, start);
    SkipNameStops(s, from);
    SkipSpaceOver(s, nameEnd);
    CloseAgrees(s, open + 1, 0, -1);
    BodyReads(s[open + 1..close.at], open + 1);
    BodyIsSpelled(s[open + 1..close.at], open + 1, r.filter);
    NotSpace();
    if s[nameEnd] == '(' { SkipsNothing(s, nameEnd); }
    assert ScopeStands(s, start, from, open, r.after, r.name, r.filter);
  }

  lemma SkipsNothing(s: string, i: nat)
    requires i < |s| && s[i] == '('
    ensures SkipSpace(s, i) == i
  {
  }

  lemma NameKept(name: string)
    requires name == "device" || name == "function" || name == "event"
    ensures !IsSpace(name[0]) && forall k :: 0 <= k < |name| ==> !EndsName(name[k])
  {
  }

  lemma SpelledScope(s: string, start: nat, from: nat, open: nat, after: nat, name: string, f: Filter)
    requires name == "device" || name == "function" || name == "event"
    requires ScopeStands(s, start, from, open, after, name, f)
    ensures ConsumeScope(s, start) == Ok(Scoped(name, f, after))
  {
    hide ParseFilterBody, Reads, SpellsBody, IsSpace, CloseFrom, SkipSpace, SkipName, AllSpace;
    NotSpace();
    NameKept(name);
    assert s[from] == name[0];
    SkipSpaceTo(s, start, from);
    SkipNameTo(s, from, name);
    SkipSpaceTo(s, from + |name|, open);
    CloseSkips(s, open + 1, after - 1, 0, -1);
    BodyIsSpelled(s[open + 1..after - 1], open + 1, f);
  }

  /** A scope is consumed as a name and a filter if and only if the text up to the place where it ends spells them. */
  lemma ScopeIsSpelled(s: string, start: nat, name: string, f: Filter, after: nat)
    requires start <= |s|
    ensures ConsumeScope(s, start) == Ok(Scoped(name, f, after)) <==> SpellsScope(s, start, after, name, f)
  {
    hide ConsumeScope, ScopeStands;
    if ConsumeScope(s, start) == Ok(Scoped(name, f, after)) { ScopeSpells(s, start); }
    if SpellsScope(s, start, after, name, f) {
      var from, open :| ScopeStands(s, start, from, open, after, name, f);
      SpelledScope(s, start, from, open, after, name, f);
    }
  }

  // ----- a whole selector -----

  lemma SpelledIsNotBlank(s: string)
    requires ConsumeScope(s, 0).Ok?
    ensures Strip(s) != ""
  {
    hide Strip, IsSpace, ParseFilterBody, CloseFrom, SkipName;
    BlankIffStripped(s);
    if AllSpace(s) {
      assert s[0..|s|] == s;
      SkipSpaceTo(s, 0, |s|);
    }
  }

  lemma SingleIsSpelled(s: string, name: string, f: Filter)
    ensures SpellsSingle(s, name, f) <==>
            && ConsumeScope(s, 0).Ok? && ConsumeScope(s, 0).value.name == name && ConsumeScope(s, 0).value.filter == f
            && SkipSpace(s, ConsumeScope(s, 0).value.after) == |s|
  {
    hide ConsumeScope, SkipSpace, SpellsScope, AllSpace;
    if SpellsSingle(s, name, f) {
      var i: nat :| i <= |s| && SpellsScope(s, 0, i, name, f) && AllSpace(s[i..]);
      ScopeIsSpelled(s, 0, name, f, i);
      assert s[i..|s|] == s[i..];
      SkipSpaceTo(s, i, |s|);
    }
    if ConsumeScope(s, 0).Ok? && SkipSpace(s, ConsumeScope(s, 0).value.after) == |s| {
      var one := ConsumeScope(s, 0).value;
      ScopeIsSpelled(s, 0, one.name, one.filter, one.after);
      SkipSpaceOver(s, one.after);
      assert s[one.after..|s|] == s[one.after..];
    }
  }

  /** The two scopes of a chain as the parser consumes them. */
  predicate Chained(s: string, f: Filter, name: string, g: Filter) {
    var one := ConsumeScope(s, 0);
    && one.Ok? && one.value.name == "device" && one.value.filter == f
    && var i := SkipSpace(s, one.value.after);
    && i < |s| && s[i] == '.'
    && var two := ConsumeScope(s, i + 1);
    && two.Ok? && two.value.name == name && two.value.filter == g
    && SkipSpace(s, two.value.after) == |s|
  }

  lemma SpelledChain(s: string, f: Filter, name: string, g: Filter)
    requires SpellsChain(s, f, name, g)
    ensures Chained(s, f, name, g)
  {
    hide ConsumeScope, SkipSpace, SpellsScope, AllSpace, IsSpace;
    var i: nat, dot: nat, k: nat :| i <= dot < k <= |s| && SpellsScope(s, 0, i, "device", f) && AllSpace(s[i..dot]) &&
      s[dot] == '.' && SpellsScope(s, dot + 1, k, name, g) && AllSpace(s[k..]);
    NotSpace();
    ScopeIsSpelled(s, 0, "device", f, i);
    SkipSpaceTo(s, i, dot);
    ScopeIsSpelled(s, dot + 1, name, g, k);
    assert s[k..|s|] == s[k..];
    SkipSpaceTo(s, k, |s|);
  }

  lemma ChainSpells(s: string, f: Filter, name: string, g: Filter)
    requires Chained(s, f, name, g)
    ensures SpellsChain(s, f, name, g)
  {
    hide ConsumeScope, SkipSpace, SpellsScope, AllSpace, IsSpace;
    var one := ConsumeScope(s, 0).value;
    var dot := SkipSpace(s, one.after);
    var two := ConsumeScope(s, dot + 1).value;
    ScopeIsSpelled(s, 0, "device", f, one.after);
    SkipSpaceOver(s, one.after);
    ScopeIsSpelled(s, dot + 1, name, g, two.after);
    SkipSpaceOver(s, two.after);
    assert s[two.after..|s|] == s[two.after..];
  }

  /** The parser accepts a text with a tree if and only if the text spells the tree. */
  lemma AcceptedIffSpelled(s: string, a: Selector)
    ensures ParseSelector(s) == Ok(a) <==> Spells(s, a)
  {
    hide ConsumeScope, SkipSpace, SpellsSingle, SpellsChain, Strip;
    if ConsumeScope(s, 0).Ok? { SpelledIsNotBlank(s); }
    forall name, f { SingleIsSpelled(s, name, f); }
    forall f, name, g ensures Chained(s, f, name, g) <==> SpellsChain(s, f, name, g) {
      if Chained(s, f, name, g) { ChainSpells(s, f, name, g); }
      if SpellsChain(s, f, name, g) { SpelledChain(s, f, name, g); }
    }
  }

}
