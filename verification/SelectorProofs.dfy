/** Printer and parser undo each other; what the parser accepts is well formed; errors point into the text. */
module SelectorProofs {
  import opened Text
  import opened Selector

  // ----- bracket depth -----

  lemma {:induction false} ReadsConcat(a: string, b: string, depth: nat, stops: set<char>)
    ensures Reads(a + b, depth, stops) ==
            if Reads(a, depth, stops).Some? then Reads(b, Reads(a, depth, stops).value, stops) else None
  {
    if a == "" {
      assert a + b == b;
    } else {
      assert (a + b)[1..] == a[1..] + b;
      if a[0] == '[' {
        ReadsConcat(a[1..], b, depth + 1, stops);
      } else if a[0] == ']' {
        if depth > 0 { ReadsConcat(a[1..], b, depth - 1, stops); }
      } else {
        ReadsConcat(a[1..], b, depth, stops);
      }
    }
  }

  /** Reading one character more. */
  lemma ReadsNext(s: string, c: char, depth: nat, stops: set<char>)
    requires Reads(s, depth, stops).Some?
    ensures var d := Reads(s, depth, stops).value;
            Reads(s + [c], depth, stops) ==
            if c == '[' then Some(d + 1)
            else if c == ']' then if d == 0 then None else Some(d - 1)
            else if d == 0 && c in stops then None
            else Some(d)
  {
    ReadsConcat(s, [c], depth, stops);
  }

  /** Fewer stops read the same depth; two readings that succeed agree and succeed together. */
  lemma {:induction false} ReadsStops(s: string, depth: nat, few: set<char>, more: set<char>)
    ensures few <= more && Reads(s, depth, more).Some? ==> Reads(s, depth, few) == Reads(s, depth, more)
    ensures Reads(s, depth, few).Some? && Reads(s, depth, more).Some? ==>
              && Reads(s, depth, few + more) == Reads(s, depth, few) == Reads(s, depth, more)
  {
    if s == "" {
    } else {
      if s[0] == '[' {
        ReadsStops(s[1..], depth + 1, few, more);
      } else if s[0] == ']' {
        if depth > 0 { ReadsStops(s[1..], depth - 1, few, more); }
      } else {
        ReadsStops(s[1..], depth, few, more);
      }
    }
  }

  /** Text without brackets keeps the depth, when it is inside brackets or holds no stop. */
  lemma {:induction false} ReadsPlain(s: string, depth: nat, stops: set<char>)
    requires '[' !in s && ']' !in s
    requires depth == 0 ==> forall k :: 0 <= k < |s| ==> s[k] !in stops
    ensures Reads(s, depth, stops) == Some(depth)
  {
    if s == "" {
    } else {
      ReadsPlain(s[1..], depth, stops);
    }
  }

  lemma {:induction false} ReadsPlainConverse(s: string, stops: set<char>)
    requires '[' !in s && ']' !in s
    requires Reads(s, 0, stops).Some?
    ensures forall k :: 0 <= k < |s| ==> s[k] !in stops
  {
    if s == "" {
    } else {
      ReadsPlainConverse(s[1..], stops);
      forall k | 0 <= k < |s| ensures s[k] !in stops {
        if k > 0 { assert s[k] == s[1..][k - 1]; }
      }
    }
  }

  lemma SpacePlain(s: string)
    requires AllSpace(s)
    ensures forall c :: c in {'[', ']', ',', ':', ')', '(', '.', '*'} ==> c !in s
  {
  }

  /** Trimming a text does not change how it reads. */
  lemma ReadsStrip(t: string, stops: set<char>)
    requires stops <= {',', ':', ')'}
    ensures Reads(t, 0, stops) == Reads(Strip(t), 0, stops)
  {
    hide Reads, Strip, Leading;
    var n, m := Leading(t), |Strip(t)|;
    StripIsTrim(t);
    var before, core, after := t[..n], Strip(t), t[n + m..];
    assert t == before + core + after;
    SpacePlain(before);
    SpacePlain(after);
    ReadsConcat(before + core, after, 0, stops);
    ReadsConcat(before, core, 0, stops);
    ReadsPlain(before, 0, stops);
    if Reads(core, 0, stops).Some? {
      ReadsPlain(after, Reads(core, 0, stops).value, stops);
    }
  }

  // ----- commas -----

  /** The terms `ts`, joined by commas, where they stand when the first begins at `offset`. */
  function Placed(ts: seq<string>, offset: int): (out: seq<Term>)
    ensures |out| == |ts|
  {
    if ts == [] then [] else [Term(ts[0], offset)] + Placed(ts[1..], offset + |ts[0]| + 1)
  }

  lemma {:induction false} PlacedTexts(ts: seq<string>, offset: int)
    ensures forall k :: 0 <= k < |ts| ==> Placed(ts, offset)[k].text == ts[k]
  {
    if ts == [] {
    } else {
      PlacedTexts(ts[1..], offset + |ts[0]| + 1);
    }
  }

  lemma {:induction false} PrintedKeyFilters(kfs: seq<KeyFilter>)
    ensures forall k :: 0 <= k < |kfs| ==> PrintKeyFilters(kfs)[k] == PrintKeyFilter(kfs[k])
  {
    if kfs == [] {
    } else {
      PrintedKeyFilters(kfs[1..]);
    }
  }

  lemma PlacedCons(ts: seq<string>, offset: int, terms: seq<Term>)
    requires ts != []
    ensures terms + Placed(ts, offset) == terms + [Term(ts[0], offset)] + Placed(ts[1..], offset + |ts[0]| + 1)
  {
  }

  lemma JoinCons(first: string, rest: seq<string>)
    requires rest != []
    ensures Join([first] + rest, ',') == first + [','] + Join(rest, ',')
  {
    assert ([first] + rest)[1..] == rest;
  }

  ghost predicate Clean(ts: seq<string>, stops: set<char>) {
    forall k :: 0 <= k < |ts| ==> Reads(ts[k], 0, stops) == Some(0)
  }

  lemma {:induction false} SplitSkips(body: string, base: int, i: nat, k: nat, depth: nat, start: nat, terms: seq<Term>)
    requires start <= i <= k <= |body|
    requires Reads(body[i..k], depth, {','}).Some?
    ensures SplitFrom(body, base, i, depth, start, terms) ==
            SplitFrom(body, base, k, Reads(body[i..k], depth, {','}).value, start, terms)
    decreases k - i
  {
    if i < k {
      assert body[i..k][1..] == body[i + 1..k];
      var next := if body[i] == '[' then depth + 1 else if body[i] == ']' then depth - 1 else depth;
      SplitSkips(body, base, i + 1, k, next, start, terms);
    }
  }

  /** The scan over one term: it is cut at the comma that follows, or at the end. */
  lemma SplitCuts(body: string, base: int, start: nat, end: nat, terms: seq<Term>)
    requires start <= end <= |body| && (end < |body| ==> body[end] == ',')
    requires Reads(body[start..end], 0, {','}) == Some(0)
    ensures var more := terms + [Term(body[start..end], base + start)];
            SplitFrom(body, base, start, 0, start, terms) ==
            if end == |body| then Ok(more) else SplitFrom(body, base, end + 1, 0, end + 1, more)
  {
    hide Reads;
    SplitSkips(body, base, start, end, 0, start, terms);
    if end == |body| { assert body[start..] == body[start..end]; }
  }

  lemma {:induction false} SplitOfJoined(body: string, base: int, start: nat, terms: seq<Term>, ts: seq<string>)
    requires start <= |body| && |ts| >= 1 && body[start..] == Join(ts, ',')
    requires Clean(ts, {','})
    ensures SplitFrom(body, base, start, 0, start, terms) == Ok(terms + Placed(ts, base + start))
    decreases |ts|
  {
    hide Reads, SplitFrom, Join, Placed;
    var first, rest := ts[0], ts[1..];
    var end := start + |first|;
    PlacedCons(ts, base + start, terms);
    if rest != [] {
      JoinCons(first, rest);
      assert ts == [first] + rest;
      assert body[start..][..|first|] == body[start..end] == first;
      assert body[start..][|first|] == body[end] == ',';
      assert body[start..][|first| + 1..] == body[end + 1..] == Join(rest, ',');
      SplitCuts(body, base, start, end, terms);
      SplitOfJoined(body, base, end + 1, terms + [Term(first, base + start)], rest);
    } else {
      LastTerm(ts, base + start);
      assert body[start..end] == body[start..] == first;
      assert terms + [Term(first, base + start)] + [] == terms + [Term(first, base + start)];
      SplitCuts(body, base, start, end, terms);
    }
  }

  lemma LastTerm(ts: seq<string>, offset: int)
    requires |ts| == 1
    ensures Join(ts, ',') == ts[0] && Placed(ts[1..], offset + |ts[0]| + 1) == []
  {
  }

  /** A body that splits is the join of clean terms, each reported where it stands. */
  lemma {:induction false} SplitAccepts(body: string, base: int, i: nat, depth: nat, start: nat, terms: seq<Term>)
    returns (ts: seq<string>)
    requires start <= i <= |body| && Reads(body[start..i], 0, {','}) == Some(depth)
    requires SplitFrom(body, base, i, depth, start, terms).Ok?
    ensures |ts| >= 1 && body[start..] == Join(ts, ',') && Clean(ts, {','})
    ensures SplitFrom(body, base, i, depth, start, terms).value == terms + Placed(ts, base + start)
    decreases |body| - i
  {
    hide Reads, Join, Placed;
    if i == |body| {
      assert body[start..] == body[start..i];
      ts := [body[start..]];
      LastTerm(ts, base + start);
      PlacedCons(ts, base + start, terms);
    } else {
      assert body[start..i + 1] == body[start..i] + [body[i]];
      ReadsNext(body[start..i], body[i], 0, {','});
      if body[i] == ',' && depth == 0 {
        var first := body[start..i];
        assert body[i + 1..i + 1] == "";
        ReadsPlain("", 0, {','});
        var rest := SplitAccepts(body, base, i + 1, 0, i + 1, terms + [Term(first, base + start)]);
        ts := [first] + rest;
        JoinCons(first, rest);
        assert body[start..] == first + [','] + body[i + 1..];
        PlacedCons(ts, base + start, terms);
        assert ts[1..] == rest;
      } else {
        var next := if body[i] == '[' then depth + 1 else if body[i] == ']' then depth - 1 else depth;
        ts := SplitAccepts(body, base, i + 1, next, start, terms);
      }
    }
  }

  /** When a joined body holds no stop outside brackets, neither does any of its terms. */
  lemma {:induction false} CleanTerms(ts: seq<string>, stops: set<char>)
    requires |ts| >= 1 && Clean(ts, {','}) && ',' !in stops
    requires Reads(Join(ts, ','), 0, stops).Some?
    ensures Clean(ts, stops)
    decreases |ts|
  {
    if |ts| == 1 {
      ReadsStops(ts[0], 0, {','}, stops);
    } else {
      var rest := Join(ts[1..], ',');
      ReadsConcat(ts[0] + [','], rest, 0, stops);
      ReadsConcat(ts[0], [','], 0, stops);
      ReadsStops(ts[0], 0, {','}, stops);
      CleanTerms(ts[1..], stops);
      forall k | 0 <= k < |ts| ensures Reads(ts[k], 0, stops) == Some(0) {
        if k > 0 { assert ts[k] == ts[1..][k - 1]; }
      }
    }
  }

  lemma {:induction false} JoinedClean(ts: seq<string>, stops: set<char>)
    requires Clean(ts, stops) && ',' !in stops
    ensures Reads(Join(ts, ','), 0, stops) == Some(0)
    decreases |ts|
  {
    if |ts| > 1 {
      var rest := Join(ts[1..], ',');
      ReadsConcat(ts[0] + [','], rest, 0, stops);
      ReadsConcat(ts[0], [','], 0, stops);
      JoinedClean(ts[1..], stops);
    }
  }

  // ----- the top-level colon -----

  lemma {:induction false} ColonAbsent(t: string, j: nat, depth: nat)
    requires j <= |t|
    ensures Reads(t[j..], depth, {':'}).Some? ==> ColonFrom(t, j, depth) == -1
    ensures Reads(t[j..], depth, {}).Some? && ColonFrom(t, j, depth) == -1 ==>
              Reads(t[j..], depth, {':'}) == Reads(t[j..], depth, {})
    decreases |t| - j
  {
    if j < |t| {
      assert t[j..][1..] == t[j + 1..];
      if t[j] == '[' {
        ColonAbsent(t, j + 1, depth + 1);
      } else if t[j] == ']' {
        if depth > 0 { ColonAbsent(t, j + 1, depth - 1); }
      } else {
        ColonAbsent(t, j + 1, depth);
      }
    }
  }

  /** The colon found is the first one outside brackets. */
  lemma {:induction false} ColonFound(t: string, j: nat, depth: nat, k: nat)
    requires j <= k < |t| && Reads(t[j..k], depth, {}).Some?
    ensures t[k] == ':' && Reads(t[j..k], depth, {':'}) == Some(0) ==> ColonFrom(t, j, depth) == k
    ensures ColonFrom(t, j, depth) == k ==> Reads(t[j..k], depth, {':'}) == Some(0)
    decreases |t| - j
  {
    if j < k {
      assert t[j..k][1..] == t[j + 1..k];
      if t[j] == '[' {
        ColonFound(t, j + 1, depth + 1, k);
      } else if t[j] == ']' {
        ColonFound(t, j + 1, depth - 1, k);
      } else {
        ColonFound(t, j + 1, depth, k);
      }
    }
  }

  // ----- value lists -----

  lemma {:induction false} JoinTrimmed(vs: seq<string>)
    requires |vs| >= 1
    requires forall k :: 0 <= k < |vs| ==> vs[k] != "" && Trimmed(vs[k])
    ensures Join(vs, ',') != "" && Trimmed(Join(vs, ','))
    ensures |Join(vs, ',')| >= |vs[0]| && Join(vs, ',')[0] == vs[0][0]
    ensures |vs| > 1 ==> |Join(vs, ',')| >= 3
    decreases |vs|
  {
    if |vs| > 1 { JoinTrimmed(vs[1..]); }
  }

  lemma {:induction false} ItemsOfValues(vs: seq<string>, base: int, out: seq<string>)
    requires forall k :: 0 <= k < |vs| ==> WellFormedValue(vs[k])
    ensures ParseItems(vs, base, out) == Ok(out + vs)
    decreases |vs|
  {
    if vs != [] {
      StripIsTrim(vs[0]);
      ItemsOfValues(vs[1..], base, out + [vs[0]]);
      assert out + vs == out + [vs[0]] + vs[1..];
    } else {
      assert out + vs == out;
    }
  }

  /** Items that parse are well-formed values. */
  lemma {:induction false} ItemsWellFormed(raws: seq<string>, base: int, out: seq<string>)
    requires forall k :: 0 <= k < |raws| ==> ',' !in raws[k]
    requires forall k :: 0 <= k < |out| ==> WellFormedValue(out[k])
    requires ParseItems(raws, base, out).Ok?
    ensures |ParseItems(raws, base, out).value| == |out| + |raws|
    ensures forall k :: 0 <= k < |out| + |raws| ==> WellFormedValue(ParseItems(raws, base, out).value[k])
    decreases |raws|
  {
    if raws == [] {
    } else {
      var v := Strip(raws[0]);
      StripIsTrim(raws[0]);
      forall c | c in v ensures c in raws[0] { }
      assert WellFormedValue(v);
      ItemsWellFormed(raws[1..], base, out + [v]);
    }
  }

  lemma PrintedValuesParse(vs: seq<string>, base: int)
    requires |vs| >= 1 && forall k :: 0 <= k < |vs| ==> WellFormedValue(vs[k])
    ensures PrintValues(vs) != "" && Trimmed(PrintValues(vs))
    ensures ParseValuePart(PrintValues(vs), base) == Ok(vs)
  {
    hide Join, ParseItems, Split;
    var p := PrintValues(vs);
    StripIsTrim(p);
    if |vs| == 1 && ')' !in vs[0] {
      assert vs == [vs[0]];
    } else {
      var joined := Join(vs, ',');
      JoinTrimmed(vs);
      assert p[0] == '[' && p[|p| - 1] == ']' && p[1..|p| - 1] == joined;
      StripIsTrim(joined);
      SplitOfJoin(vs, ',');
      ItemsOfValues(vs, base, []);
      assert [] + vs == vs;
    }
  }

  lemma {:induction false} JoinedBracketFree(vs: seq<string>)
    requires forall k :: 0 <= k < |vs| ==> WellFormedValue(vs[k])
    ensures '[' !in Join(vs, ',') && ']' !in Join(vs, ',')
    decreases |vs|
  {
    if |vs| > 1 { JoinedBracketFree(vs[1..]); }
  }

  lemma PrintedValuesClean(vs: seq<string>)
    requires |vs| >= 1 && forall k :: 0 <= k < |vs| ==> WellFormedValue(vs[k])
    ensures Reads(PrintValues(vs), 0, {',', ')'}) == Some(0)
  {
    if |vs| == 1 && ')' !in vs[0] {
      ReadsPlain(vs[0], 0, {',', ')'});
    } else {
      var joined := Join(vs, ',');
      JoinedBracketFree(vs);
      ReadsPlain(joined, 1, {',', ')'});
      ReadsConcat("[" + joined, "]", 0, {',', ')'});
      ReadsConcat("[", joined, 0, {',', ')'});
    }
  }

  lemma ValuePartWellFormed(value: string, base: int)
    requires Reads(value, 0, {','}).Some?
    requires ParseValuePart(value, base).Ok?
    ensures var vs := ParseValuePart(value, base).value;
            |vs| >= 1 && forall k :: 0 <= k < |vs| ==> WellFormedValue(vs[k])
  {
    hide Reads, ParseItems, Split;
    var v := Strip(value);
    StripIsTrim(value);
    if v[0] == '[' {
      var inner := Strip(v[1..|v| - 1]);
      SplitParts(inner, ',');
      ItemsWellFormed(Split(inner, ','), base, []);
    } else {
      ReadsStrip(value, {','});
      ReadsPlainConverse(v, {','});
    }
  }

  // ----- terms -----

  lemma KeyPlain(key: string)
    requires IsValidKey(key)
    ensures Trimmed(key) && forall c :: c in {'[', ']', ',', ':', ')'} ==> c !in key
  {
  }

  lemma PrintedKeyFilter(kf: KeyFilter)
    requires WellFormedKeyFilter(kf)
    ensures var t := PrintKeyFilter(kf);
            && |t| >= 3 && Trimmed(t)
            && Reads(t, 0, {',', ')'}) == Some(0)
            && ColonFrom(t, 0, 0) == |kf.key|
            && t[..|kf.key|] == kf.key && t[|kf.key| + 1..] == PrintValues(kf.values)
  {
    hide Reads, PrintValues, Strip, ColonFrom;
    var t, v := PrintKeyFilter(kf), PrintValues(kf.values);
    KeyPlain(kf.key);
    PrintedValuesParse(kf.values, 0);
    PrintedValuesClean(kf.values);
    ReadsPlain(kf.key + ":", 0, {',', ')'});
    ReadsConcat(kf.key + ":", v, 0, {',', ')'});
    assert t[0..|kf.key|] == kf.key;
    ReadsPlain(kf.key, 0, {':'});
    ReadsPlain(kf.key, 0, {});
    ColonFound(t, 0, 0, |kf.key|);
    assert t[|t| - 1] == v[|v| - 1];
  }

  lemma KeyedTermParses(kf: KeyFilter, term: Term, sofar: Filter)
    requires WellFormedKeyFilter(kf) && term.text == PrintKeyFilter(kf)
    ensures ParseTerm(term, sofar) == Ok(sofar.(keyFilters := sofar.keyFilters + [kf]))
  {
    hide PrintValues, ColonFrom, ParseValuePart, Reads, PrintKeyFilter, Strip, Leading;
    var t := PrintKeyFilter(kf);
    PrintedKeyFilter(kf);
    KeyPlain(kf.key);
    StripIsTrim(t);
    StripIsTrim(kf.key);
    PrintedValuesParse(kf.values, term.offset + Leading(t) + |kf.key| + 1);
  }

  lemma {:induction false} KeyFilterTermsParse(kfs: seq<KeyFilter>, terms: seq<Term>, sofar: Filter)
    requires |terms| == |kfs|
    requires forall k :: 0 <= k < |kfs| ==> WellFormedKeyFilter(kfs[k]) && terms[k].text == PrintKeyFilter(kfs[k])
    ensures ParseTerms(terms, sofar) == Ok(sofar.(keyFilters := sofar.keyFilters + kfs))
    decreases |kfs|
  {
    hide WellFormedKeyFilter, PrintKeyFilter, ParseTerm;
    if kfs == [] {
      assert sofar.keyFilters + kfs == sofar.keyFilters;
    } else {
      var next := sofar.(keyFilters := sofar.keyFilters + [kfs[0]]);
      KeyedTermParses(kfs[0], terms[0], sofar);
      KeyFilterTermsParse(kfs[1..], terms[1..], next);
      assert sofar.keyFilters + kfs == next.keyFilters + kfs[1..];
    }
  }

  lemma PrintedName(n: string)
    requires WellFormedName(n)
    ensures ColonFrom(n, 0, 0) == -1 && Reads(n, 0, {',', ')'}) == Some(0)
  {
    ReadsStops(n, 0, {':'}, {',', ':', ')'});
    ReadsStops(n, 0, {',', ')'}, {',', ':', ')'});
    assert n[0..] == n;
    ColonAbsent(n, 0, 0);
  }

  lemma PrintedTermsShape(f: Filter)
    requires WellFormedFilter(f)
    ensures Clean(PrintTerms(f), {',', ')'})
    ensures forall k :: 0 <= k < |PrintTerms(f)| ==> PrintTerms(f)[k] != "" && Trimmed(PrintTerms(f)[k])
    ensures |PrintTerms(f)| == 1 ==> PrintTerms(f)[0] != "*"
  {
    hide Reads, PrintKeyFilter, WellFormedKeyFilter;
    var ts := PrintTerms(f);
    PrintedKeyFilters(f.keyFilters);
    var shift := if f.nameMatch.Some? then 1 else 0;
    forall k | 0 <= k < |ts|
      ensures Reads(ts[k], 0, {',', ')'}) == Some(0) && ts[k] != "" && Trimmed(ts[k]) && ts[k] != "*"
    {
      if k < shift {
        PrintedName(f.nameMatch.value);
      } else {
        assert ts[k] == PrintKeyFilter(f.keyFilters[k - shift]);
        PrintedKeyFilter(f.keyFilters[k - shift]);
      }
    }
  }

  lemma NameTermParses(n: string, offset: int, more: seq<Term>)
    requires WellFormedName(n)
    ensures ParseTerms([Term(n, offset)] + more, Filter(None, [])) == ParseTerms(more, Filter(Some(n), []))
  {
    hide ColonFrom, ParseKeyed, Reads, Strip, Leading;
    PrintedName(n);
    StripIsTrim(n);
    assert ParseTerm(Term(n, offset), Filter(None, [])) == Ok(Filter(Some(n), []));
    assert ([Term(n, offset)] + more)[1..] == more;
  }

  lemma KeyTermsParse(kfs: seq<KeyFilter>, offset: int, name: Option<string>)
    requires forall k :: 0 <= k < |kfs| ==> WellFormedKeyFilter(kfs[k])
    ensures ParseTerms(Placed(PrintKeyFilters(kfs), offset), Filter(name, [])) == Ok(Filter(name, kfs))
  {
    hide ParseTerms, WellFormedKeyFilter, PrintKeyFilter, PrintKeyFilters, Placed;
    PrintedKeyFilters(kfs);
    PlacedTexts(PrintKeyFilters(kfs), offset);
    KeyFilterTermsParse(kfs, Placed(PrintKeyFilters(kfs), offset), Filter(name, []));
    assert [] + kfs == kfs;
  }

  lemma TermsOfPrinted(f: Filter, base: int)
    requires WellFormedFilter(f)
    ensures ParseTerms(Placed(PrintTerms(f), base), Filter(None, [])) == Ok(f)
  {
    hide ParseTerms, WellFormedName, WellFormedKeyFilter, PrintKeyFilters;
    var ts, keys := PrintTerms(f), PrintKeyFilters(f.keyFilters);
    if f.nameMatch.Some? {
      var n := f.nameMatch.value;
      assert ts == [n] + keys && ts[1..] == keys;
      NameTermParses(n, base, Placed(keys, base + |n| + 1));
      KeyTermsParse(f.keyFilters, base + |n| + 1, Some(n));
    } else {
      assert ts == keys;
      KeyTermsParse(f.keyFilters, base, None);
    }
  }

  lemma PrintedBodyShape(f: Filter)
    requires WellFormedFilter(f) && PrintTerms(f) != []
    ensures var body := PrintBody(f);
            Reads(body, 0, {')'}) == Some(0) && Trimmed(body) && body != "" && body != "*"
    ensures Clean(PrintTerms(f), {','})
  {
    hide Reads, Join, PrintTerms, WellFormedFilter;
    var ts := PrintTerms(f);
    PrintedTermsShape(f);
    forall k | 0 <= k < |ts| ensures Reads(ts[k], 0, {','}) == Reads(ts[k], 0, {')'}) == Some(0) {
      ReadsStops(ts[k], 0, {','}, {',', ')'});
      ReadsStops(ts[k], 0, {')'}, {',', ')'});
    }
    JoinedClean(ts, {')'});
    JoinTrimmed(ts);
    if |ts| == 1 { LastTerm(ts, 0); }
  }

  lemma StarBodyParses(base: int)
    ensures Reads("*", 0, {')'}) == Some(0) && ParseFilterBody("*", base) == Ok(Filter(None, []))
  {
    hide Strip, Reads, SplitFrom, ParseTerms;
    StripIsTrim("*");
    ReadsPlain("*", 0, {')'});
  }

  lemma TermsBodyParses(f: Filter, base: int)
    requires WellFormedFilter(f) && PrintTerms(f) != []
    ensures ParseFilterBody(Join(PrintTerms(f), ','), base) == Ok(f)
  {
    hide Strip, Reads, Join, SplitFrom, ParseTerms, WellFormedFilter, PrintTerms, Placed, Clean, Trimmed;
    var ts := PrintTerms(f);
    var body := Join(ts, ',');
    PrintedBodyShape(f);
    StripIsTrim(body);
    assert body[0..] == body;
    SplitOfJoined(body, base, 0, [], ts);
    assert [] + Placed(ts, base) == Placed(ts, base);
    TermsOfPrinted(f, base);
  }

  /** The printed body reads clean and parses back to its filter, wherever it stands. */
  lemma PrintedBodyParses(f: Filter, base: int)
    requires WellFormedFilter(f)
    ensures Reads(PrintBody(f), 0, {')'}) == Some(0)
    ensures ParseFilterBody(PrintBody(f), base) == Ok(f)
  {
    hide Reads, ParseFilterBody, WellFormedFilter, Join;
    if PrintTerms(f) == [] {
      assert f == Filter(None, []);
      StarBodyParses(base);
    } else {
      PrintedBodyShape(f);
      TermsBodyParses(f, base);
    }
  }

  /** A term that parses keeps the filter well formed. */
  lemma TermWellFormed(term: Term, sofar: Filter)
    requires Reads(term.text, 0, {','}) == Reads(term.text, 0, {')'}) == Some(0)
    requires WellFormedFilter(sofar) && ParseTerm(term, sofar).Ok?
    ensures WellFormedFilter(ParseTerm(term, sofar).value)
  {
    hide Reads, ColonFrom, ParseKeyed, Strip;
    var text := Strip(term.text);
    var colon := ColonFrom(text, 0, 0);
    StripIsTrim(term.text);
    ReadsStrip(term.text, {','});
    ReadsStrip(term.text, {')'});
    if colon < 0 {
      NamedTerm(text);
    } else {
      KeyedTerm(text, colon, term.offset + Leading(term.text));
    }
  }

  lemma {:induction false} TermsWellFormed(terms: seq<Term>, sofar: Filter)
    requires forall k :: 0 <= k < |terms| ==>
      Reads(terms[k].text, 0, {','}) == Reads(terms[k].text, 0, {')'}) == Some(0)
    requires WellFormedFilter(sofar)
    requires ParseTerms(terms, sofar).Ok?
    ensures WellFormedFilter(ParseTerms(terms, sofar).value)
    decreases |terms|
  {
    hide Reads, ParseTerm, WellFormedFilter;
    if terms == [] {
    } else {
      TermWellFormed(terms[0], sofar);
      TermsWellFormed(terms[1..], ParseTerm(terms[0], sofar).value);
    }
  }

  lemma NamedTerm(text: string)
    requires Reads(text, 0, {','}) == Reads(text, 0, {')'}) == Some(0) && ColonFrom(text, 0, 0) == -1
    ensures Reads(text, 0, {',', ':', ')'}) == Some(0)
  {
    hide Reads, ColonFrom;
    assert text[0..] == text && {',', ':'} + {')'} == {',', ':', ')'} && {','} + {':'} == {',', ':'};
    ReadsStops(text, 0, {}, {','});
    ColonAbsent(text, 0, 0);
    ReadsStops(text, 0, {','}, {':'});
    ReadsStops(text, 0, {',', ':'}, {')'});
  }

  lemma KeyedTerm(text: string, colon: nat, at: int)
    requires Reads(text, 0, {','}) == Some(0) && colon < |text| && ColonFrom(text, 0, 0) == colon
    requires ParseKeyed(text, colon, at).Ok?
    ensures WellFormedKeyFilter(ParseKeyed(text, colon, at).value)
  {
    hide Reads, ColonFrom, ParseValuePart, IsValidKey, WellFormedValue;
    var before, value := text[..colon], text[colon + 1..];
    assert text == before + [':'] + value && text[0..colon] == before;
    ReadsConcat(before + [':'], value, 0, {','});
    ReadsConcat(before, [':'], 0, {','});
    ReadsNext(before, ':', 0, {','});
    ReadsStops(before, 0, {}, {','});
    ColonFound(text, 0, 0, colon);
    ReadsStops(before, 0, {','}, {':'});
    ValuePartWellFormed(value, at + colon + 1);
  }

  lemma FilterBodyWellFormed(body: string, base: int)
    requires ParseFilterBody(body, base).Ok?
    requires Reads(body, 0, {}).Some? ==> Reads(body, 0, {')'}) == Some(0)
    ensures WellFormedFilter(ParseFilterBody(body, base).value)
  {
    hide Reads, Join, Placed, ParseTerms, Strip, SplitFrom, WellFormedKeyFilter;
    if Strip(body) != "" && Strip(body) != "*" {
      var terms := SplitFrom(body, base, 0, 0, 0, []).value;
      assert body[0..0] == "";
      ReadsPlain("", 0, {','});
      var ts := SplitAccepts(body, base, 0, 0, 0, []);
      assert body[0..] == body && terms == Placed(ts, base);
      PlacedTexts(ts, base);
      forall k | 0 <= k < |ts| ensures Reads(ts[k], 0, {}) == Some(0) {
        ReadsStops(ts[k], 0, {}, {','});
      }
      JoinedClean(ts, {});
      CleanTerms(ts, {')'});
      TermsWellFormed(terms, Filter(None, []));
    }
  }

  // ----- the closing parenthesis, and the agreement of the two bracket scans -----

  lemma {:induction false} CloseSkips(s: string, j: nat, k: nat, depth: nat, lastOpen: int)
    requires j <= k < |s| && s[k] == ')' && Reads(s[j..k], depth, {')'}) == Some(0)
    ensures CloseFrom(s, j, depth, lastOpen).at == k
    decreases k - j
  {
    if j < k {
      assert s[j..k][1..] == s[j + 1..k];
      if s[j] == '[' {
        CloseSkips(s, j + 1, k, depth + 1, j);
      } else if s[j] == ']' {
        CloseSkips(s, j + 1, k, depth - 1, lastOpen);
      } else {
        CloseSkips(s, j + 1, k, depth, lastOpen);
      }
    }
  }

  /** Where the scan for the parenthesis stops, a body whose brackets balance reads back to depth 0. */
  lemma {:induction false} CloseAgrees(s: string, j: nat, depth: nat, lastOpen: int)
    requires j <= |s| && CloseFrom(s, j, depth, lastOpen).at < |s|
    ensures var body := s[j..CloseFrom(s, j, depth, lastOpen).at];
            Reads(body, depth, {}).Some? ==> Reads(body, depth, {}) == Reads(body, depth, {')'}) == Some(0)
    decreases |s| - j
  {
    var body := s[j..CloseFrom(s, j, depth, lastOpen).at];
    if body == "" {
    } else {
      assert body[1..] == s[j + 1..CloseFrom(s, j, depth, lastOpen).at];
      if s[j] == '[' {
        CloseAgrees(s, j + 1, depth + 1, j);
      } else if s[j] == ']' {
        if depth > 0 { CloseAgrees(s, j + 1, depth - 1, lastOpen); }
      } else {
        CloseAgrees(s, j + 1, depth, lastOpen);
      }
    }
  }

  /** The comma scan complains of an open bracket exactly when the body reads to a positive depth; its other
      complaint points into the body. */
  lemma {:induction false} SplitComplaints(body: string, base: int, i: nat, depth: nat, start: nat, terms: seq<Term>)
    requires start <= i <= |body|
    ensures var r := SplitFrom(body, base, i, depth, start, terms);
            var end := Reads(body[i..], depth, {});
            && (r.Ok? <==> end == Some(0))
            && (r.Err? && r.kind == UnmatchedOpen <==> end.Some? && end.value > 0)
            && (r.Err? && r.kind != UnmatchedOpen ==>
                  r.kind == UnmatchedClose && base + i <= r.position < base + |body|)
    decreases |body| - i
  {
    if i < |body| {
      assert body[i..][1..] == body[i + 1..];
      if body[i] == '[' {
        SplitComplaints(body, base, i + 1, depth + 1, start, terms);
      } else if body[i] == ']' {
        if depth > 0 { SplitComplaints(body, base, i + 1, depth - 1, start, terms); }
      } else if body[i] == ',' && depth == 0 {
        SplitComplaints(body, base, i + 1, depth, i + 1, terms + [Term(body[start..i], base + start)]);
      } else {
        SplitComplaints(body, base, i + 1, depth, start, terms);
      }
    }
  }

  // ----- whole scopes -----

  lemma {:induction false} SkipNameOver(s: string, i: nat, name: string)
    requires i + |name| < |s| && s[i..i + |name|] == name && s[i + |name|] == '('
    requires forall k :: 0 <= k < |name| ==> !EndsName(name[k])
    ensures SkipName(s, i) == i + |name|
    decreases |name|
  {
    if name == "" {
    } else {
      assert s[i] == name[0];
      assert s[i + 1..i + |name|] == name[1..];
      SkipNameOver(s, i + 1, name[1..]);
    }
  }

  lemma ScopeAt(s: string, start: nat, open: nat, close: nat)
    requires start < open < close < |s| && IsScopeName(s[start..open])
    requires s[open] == '(' && s[close] == ')' && Reads(s[open + 1..close], 0, {')'}) == Some(0)
    ensures var filter := ParseFilterBody(s[open + 1..close], open + 1);
            filter.Ok? ==> ConsumeScope(s, start) == Ok(Scoped(s[start..open], filter.value, close + 1))
  {
    hide ParseFilterBody, Reads;
    var name := s[start..open];
    assert s[start] == name[0];
    SkipNameOver(s, start, name);
    CloseSkips(s, open + 1, close, 0, -1);
  }

  lemma ScopeOfPrinted(s: string, start: nat, name: string, f: Filter, tail: string)
    requires start <= |s| && s[start..] == PrintScope(name, f) + tail
    requires IsScopeName(name) && WellFormedFilter(f)
    ensures ConsumeScope(s, start) == Ok(Scoped(name, f, start + |PrintScope(name, f)|))
  {
    hide ParseFilterBody, PrintBody, WellFormedFilter, Reads, ConsumeScope;
    var body, here := PrintBody(f), s[start..];
    var open := start + |name|;
    var close := open + 1 + |body|;
    assert here == name + "(" + body + ")" + tail;
    assert here[..|name|] == name && here[|name|] == '(';
    assert here[|name| + 1..|name| + 1 + |body|] == body && here[|name| + 1 + |body|] == ')';
    assert s[start..open] == here[..|name|];
    assert s[open + 1..close] == here[|name| + 1..|name| + 1 + |body|];
    PrintedBodyParses(f, open + 1);
    ScopeAt(s, start, open, close);
  }

  lemma ScopeWellFormed(s: string, start: nat)
    requires start <= |s| && ConsumeScope(s, start).Ok?
    ensures WellFormedFilter(ConsumeScope(s, start).value.filter)
  {
    hide ParseFilterBody, WellFormedFilter, Reads;
    var open := SkipSpace(s, SkipName(s, SkipSpace(s, start)));
    var close := CloseFrom(s, open + 1, 0, -1);
    CloseAgrees(s, open + 1, 0, -1);
    FilterBodyWellFormed(s[open + 1..close.at], open + 1);
  }

  /** A position that the error message can mark: inside the text, or just after it. */
  ghost predicate PointsInto<T>(r: Result<T>, low: int, high: int) {
    r.Err? ==> low <= r.position <= high
  }

  lemma {:induction false} ItemErrors(raws: seq<string>, base: int, out: seq<string>)
    ensures PointsInto(ParseItems(raws, base, out), base, base)
    decreases |raws|
  {
    if raws != [] && Strip(raws[0]) != "" {
      ItemErrors(raws[1..], base, out + [Strip(raws[0])]);
    }
  }

  lemma ValueErrors(value: string, base: int)
    ensures PointsInto(ParseValuePart(value, base), base, base)
    ensures ParseValuePart(value, base).Err? ==> ParseValuePart(value, base).kind != UnmatchedOpen
  {
    var v := Strip(value);
    if v != "" && v[0] == '[' && v[|v| - 1] == ']' {
      var inner := Strip(v[1..|v| - 1]);
      ItemErrors(Split(inner, ','), base, []);
      ItemKinds(Split(inner, ','), base, []);
    }
  }

  lemma {:induction false} ItemKinds(raws: seq<string>, base: int, out: seq<string>)
    ensures ParseItems(raws, base, out).Err? ==> ParseItems(raws, base, out).kind != UnmatchedOpen
    decreases |raws|
  {
    if raws != [] && Strip(raws[0]) != "" {
      ItemKinds(raws[1..], base, out + [Strip(raws[0])]);
    }
  }

  lemma KeyedError(text: string, colon: nat, at: int)
    requires colon < |text|
    ensures PointsInto(ParseKeyed(text, colon, at), at, at + |text|)
    ensures ParseKeyed(text, colon, at).Err? ==> ParseKeyed(text, colon, at).kind != UnmatchedOpen
  {
    hide ParseValuePart, IsValidKey;
    ValueErrors(text[colon + 1..], at + colon + 1);
  }

  lemma TermError(term: Term, sofar: Filter)
    ensures PointsInto(ParseTerm(term, sofar), term.offset, term.offset + |term.text|)
    ensures ParseTerm(term, sofar).Err? ==> ParseTerm(term, sofar).kind != UnmatchedOpen
  {
    hide ParseKeyed, ColonFrom, Strip, Leading;
    var text := Strip(term.text);
    var colon := ColonFrom(text, 0, 0);
    if colon >= 0 {
      KeyedError(text, colon, term.offset + Leading(term.text));
    }
  }

  lemma {:induction false} TermErrors(terms: seq<Term>, sofar: Filter, low: int, high: int)
    requires forall k :: 0 <= k < |terms| ==> low <= terms[k].offset && terms[k].offset + |terms[k].text| <= high
    ensures PointsInto(ParseTerms(terms, sofar), low, high)
    ensures ParseTerms(terms, sofar).Err? ==> ParseTerms(terms, sofar).kind != UnmatchedOpen
    decreases |terms|
  {
    hide ParseTerm;
    if terms == [] {
    } else {
      TermError(terms[0], sofar);
      if ParseTerm(terms[0], sofar).Ok? {
        TermErrors(terms[1..], ParseTerm(terms[0], sofar).value, low, high);
      }
    }
  }

  lemma {:induction false} PlacedWithin(ts: seq<string>, offset: int)
    requires |ts| >= 1
    ensures forall k :: 0 <= k < |ts| ==>
              var t := Placed(ts, offset)[k];
              offset <= t.offset && t.offset + |t.text| <= offset + |Join(ts, ',')|
    decreases |ts|
  {
    if |ts| > 1 {
      PlacedWithin(ts[1..], offset + |ts[0]| + 1);
    }
  }

  lemma BodyErrors(s: string, open: nat)
    requires open < |s| && CloseFrom(s, open + 1, 0, -1).at < |s|
    ensures var at := CloseFrom(s, open + 1, 0, -1).at;
            var r := ParseFilterBody(s[open + 1..at], open + 1);
            PointsInto(r, 0, |s|) && (r.Err? ==> r.kind != UnmatchedOpen)
  {
    hide ParseTerms, SplitFrom, Strip, Placed, Join, Reads, CloseFrom;
    var close := CloseFrom(s, open + 1, 0, -1);
    var body := s[open + 1..close.at];
    CloseAgrees(s, open + 1, 0, -1);
    SplitComplaints(body, open + 1, 0, 0, 0, []);
    assert body[0..] == body;
    if SplitFrom(body, open + 1, 0, 0, 0, []).Ok? { SplitErrors(body, open + 1); }
  }

  lemma SplitErrors(body: string, base: int)
    requires SplitFrom(body, base, 0, 0, 0, []).Ok?
    ensures var r := ParseTerms(SplitFrom(body, base, 0, 0, 0, []).value, Filter(None, []));
            PointsInto(r, base, base + |body|) && (r.Err? ==> r.kind != UnmatchedOpen)
  {
    hide ParseTerms, SplitFrom, Placed, Join;
    assert body[0..0] == "" && body[0..] == body;
    var ts := SplitAccepts(body, base, 0, 0, 0, []);
    assert [] + Placed(ts, base) == Placed(ts, base);
    PlacedTexts(ts, base);
    PlacedWithin(ts, base);
    TermErrors(SplitFrom(body, base, 0, 0, 0, []).value, Filter(None, []), base, base + |body|);
  }

  lemma ScopeErrors(s: string, start: nat)
    requires start <= |s|
    ensures PointsInto(ConsumeScope(s, start), 0, |s|)
    ensures ConsumeScope(s, start).Err? ==> ConsumeScope(s, start).kind != UnmatchedOpen
  {
    hide ParseFilterBody;
    var nameStart := SkipSpace(s, start);
    var nameEnd := SkipName(s, nameStart);
    var open := SkipSpace(s, nameEnd);
    if IsScopeName(s[nameStart..nameEnd]) && open < |s| && s[open] == '(' {
      if CloseFrom(s, open + 1, 0, -1).at < |s| { BodyErrors(s, open); }
    }
  }

  // ----- main results -----

  lemma StripIsNotEmpty(s: string)
    requires s != "" && !IsSpace(s[0])
    ensures Strip(s) != ""
  {
    StripIsTrim(s);
    assert s[0..] == s;
  }

  lemma PrintScopeStarts(name: string, f: Filter)
    requires name != ""
    ensures PrintScope(name, f) != "" && PrintScope(name, f)[0] == name[0]
  {
    hide PrintBody;
  }

  lemma SingleParses(name: string, f: Filter)
    requires IsScopeName(name) && WellFormedFilter(f)
    ensures var s := PrintScope(name, f);
            ParseSelector(s) == Ok(SingleScope(Scoped(name, f, |s|), s))
  {
    hide ConsumeScope, PrintBody, WellFormedFilter, Strip;
    var s := PrintScope(name, f);
    assert s[0..] == s == s + "" && s[0] == name[0];
    StripIsNotEmpty(s);
    ScopeOfPrinted(s, 0, name, f, "");
  }

  lemma ChainParses(f: Filter, name: string, g: Filter)
    requires (name == "function" || name == "event") && WellFormedFilter(f) && WellFormedFilter(g)
    ensures var s := PrintScope("device", f) + "." + PrintScope(name, g);
            ParseSelector(s) == Ok(
              if name == "function" then Selector(DeviceFunction, Some(f), Some(g), None, s)
              else Selector(DeviceEvent, Some(f), None, Some(g), s))
  {
    hide ConsumeScope, PrintScope, WellFormedFilter, Strip;
    PrintScopeStarts("device", f);
    var first, second := PrintScope("device", f), PrintScope(name, g);
    var s := first + "." + second;
    assert s == first + ("." + second) && s[0..] == s && s[0] == 'd';
    assert s[|first|] == '.' && s[|first| + 1..] == second + "";
    StripIsNotEmpty(s);
    ScopeOfPrinted(s, 0, "device", f, "." + second);
    ScopeOfPrinted(s, |first| + 1, name, g, "");
  }

  /** Parsing what the printer wrote gives the tree back, with the text as its `raw`. */
  lemma ParseUndoesPrint(a: Selector)
    requires WellFormed(a)
    ensures ParseSelector(Print(a)) == Ok(a.(raw := Print(a)))
  {
    hide ParseSelector, PrintScope, WellFormedFilter;
    match a.scope
    case DeviceOnly => SingleParses("device", a.device.value);
    case FunctionOnly => SingleParses("function", a.function_.value);
    case EventOnly => SingleParses("event", a.event.value);
    case DeviceFunction => ChainParses(a.device.value, "function", a.function_.value);
    case DeviceEvent => ChainParses(a.device.value, "event", a.event.value);
  }

  /** Every accepted text gives a well-formed tree that remembers the text. */
  lemma AcceptedIsWellFormed(s: string)
    requires ParseSelector(s).Ok?
    ensures WellFormed(ParseSelector(s).value) && ParseSelector(s).value.raw == s
  {
    hide ConsumeScope, Strip, WellFormedFilter;
    ScopeWellFormed(s, 0);
    var i := SkipSpace(s, ConsumeScope(s, 0).value.after);
    if i < |s| {
      ScopeWellFormed(s, i + 1);
    }
  }

  /** Printing an accepted text and parsing it again changes nothing but `raw`. */
  lemma ParsePrintParse(s: string)
    requires ParseSelector(s).Ok?
    ensures WellFormed(ParseSelector(s).value)
    ensures var a := ParseSelector(s).value;
            ParseSelector(Print(a)) == Ok(a.(raw := Print(a)))
  {
    AcceptedIsWellFormed(s);
    ParseUndoesPrint(ParseSelector(s).value);
  }

  /** A rejected text is rejected at a position inside it, and never for an unmatched opening bracket: the scan
      for the closing parenthesis has already matched every one. */
  lemma ErrorsPointIntoText(s: string)
    ensures PointsInto(ParseSelector(s), 0, |s|)
    ensures ParseSelector(s).Err? ==> ParseSelector(s).kind != UnmatchedOpen
  {
    hide ConsumeScope, Strip;
    ScopeErrors(s, 0);
    if Strip(s) != "" && ConsumeScope(s, 0).Ok? {
      var i := SkipSpace(s, ConsumeScope(s, 0).value.after);
      if i < |s| {
        ScopeErrors(s, i + 1);
      }
    }
  }
}
