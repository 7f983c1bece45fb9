/** The parser's loops, each computing what its recursive function in Selector.dfy says. */
module SelectorScanner {
  import opened Text
  import opened Selector
  import opened SelectorGrammar
  import opened SelectorProofs

  /** `_split_top_commas`. */
  method SplitTopCommas(body: string, base: int) returns (r: Result<seq<Term>>)
    ensures r == SplitFrom(body, base, 0, 0, 0, [])
  {
    var terms: seq<Term> := [];
    var depth: nat, start := 0, 0;
    for i := 0 to |body|
      invariant start <= i
      invariant SplitFrom(body, base, i, depth, start, terms) == SplitFrom(body, base, 0, 0, 0, [])
    {
      if body[i] == '[' {
        depth := depth + 1;
      } else if body[i] == ']' {
        if depth == 0 { return Err(UnmatchedClose, base + i); }
        depth := depth - 1;
      } else if body[i] == ',' && depth == 0 {
        terms := terms + [Term(body[start..i], base + start)];
        start := i + 1;
      }
    }
    if depth != 0 { return Err(UnmatchedOpen, base + RFind(body, '[')); }
    return Ok(terms + [Term(body[start..], base + start)]);
  }

  /** `_parse_value_part`, with its loop over the items of a bracketed list. */
  method ParseValues(value: string, base: int) returns (r: Result<seq<string>>)
    ensures r == ParseValuePart(value, base)
  {
    var v := Strip(value);
    if v == "" { return Err(EmptyValue, base); }
    if v[0] == '[' {
      if v[|v| - 1] != ']' { return Err(UnclosedBracket, base); }
      var inner := Strip(v[1..|v| - 1]);
      if inner == "" { return Err(EmptyValueList, base); }
      var raws := Split(inner, ',');
      var out: seq<string> := [];
      for i := 0 to |raws|
        invariant ParseItems(raws[i..], base, out) == ParseItems(raws, base, [])
      {
        assert raws[i..][1..] == raws[i + 1..];
        var item := Strip(raws[i]);
        if item == "" { return Err(EmptyListItem, base); }
        if '[' in item || ']' in item { return Err(NestedBrackets, base); }
        out := out + [item];
      }
      return Ok(out);
    }
    if '[' in v || ']' in v { return Err(StrayBracket, base); }
    return Ok([v]);
  }

  /** The search for a colon outside brackets inside `_parse_filter_body`. */
  method FindTopColon(text: string) returns (colon: int)
    ensures colon == ColonFrom(text, 0, 0)
  {
    var depth := 0;
    for j := 0 to |text|
      invariant ColonFrom(text, j, depth) == ColonFrom(text, 0, 0)
    {
      if text[j] == '[' {
        depth := depth + 1;
      } else if text[j] == ']' {
        depth := depth - 1;
      } else if text[j] == ':' && depth == 0 {
        return j;
      }
    }
    return -1;
  }

  /** One round of the term loop in `_parse_filter_body`. */
  method ParseOneTerm(term: Term, sofar: Filter) returns (r: Result<Filter>)
    ensures r == ParseTerm(term, sofar)
  {
    hide ParseValuePart, ColonFrom, IsValidKey, Strip, Leading;
    var text := Strip(term.text);
    var at := term.offset + Leading(term.text);
    if text == "" { return Err(EmptyTerm, at); }
    var colon := FindTopColon(text);
    if colon < 0 {
      if text == "*" { return Ok(sofar); }
      if sofar.nameMatch.Some? { return Err(MultipleNames, at); }
      return Ok(sofar.(nameMatch := Some(text)));
    }
    var key := Strip(text[..colon]);
    if !IsValidKey(key) { return Err(InvalidKey, at); }
    var values := ParseValues(text[colon + 1..], at + colon + 1);
    if values.Err? { return Err(values.kind, values.position); }
    return Ok(sofar.(keyFilters := sofar.keyFilters + [KeyFilter(key, values.value)]));
  }

  /** `_parse_filter_body`. */
  method ParseBody(body: string, base: int) returns (r: Result<Filter>)
    ensures r == ParseFilterBody(body, base)
    ensures forall f :: r == Ok(f) <==> SpellsBody(body, f)
  {
    hide SpellsBody;
    forall f ensures ParseFilterBody(body, base) == Ok(f) <==> SpellsBody(body, f) { BodyIsSpelled(body, base, f); }
    if Strip(body) == "" || Strip(body) == "*" { return Ok(Filter(None, [])); }
    var split := SplitTopCommas(body, base);
    if split.Err? { return Err(split.kind, split.position); }
    var terms := split.value;
    var sofar := Filter(None, []);
    for i := 0 to |terms|
      invariant ParseTerms(terms[i..], sofar) == ParseTerms(terms, Filter(None, []))
    {
      assert terms[i..][1..] == terms[i + 1..];
      var next := ParseOneTerm(terms[i], sofar);
      if next.Err? { return next; }
      sofar := next.value;
    }
    return Ok(sofar);
  }

  /** The search for the closing parenthesis inside `_consume_scope`. */
  method FindClose(s: string, bodyStart: nat) returns (close: Close)
    requires bodyStart <= |s|
    ensures close == CloseFrom(s, bodyStart, 0, -1)
  {
    var depth, lastOpen := 0, -1;
    var j := bodyStart;
    while j < |s| && !(s[j] == ')' && depth == 0)
      invariant bodyStart <= j <= |s|
      invariant CloseFrom(s, j, depth, lastOpen) == CloseFrom(s, bodyStart, 0, -1)
    {
      if s[j] == '[' {
        depth, lastOpen := depth + 1, j;
      } else if s[j] == ']' {
        depth := depth - 1;
      }
      j := j + 1;
    }
    return Close(j, depth, lastOpen);
  }

  /** `_consume_scope`. */
  method ReadScope(s: string, start: nat) returns (r: Result<Scoped>)
    requires start <= |s|
    ensures r == ConsumeScope(s, start)
  {
    hide ParseFilterBody, CloseFrom;
    var i := start;
    while i < |s| && IsSpace(s[i])
      invariant i <= |s| && SkipSpace(s, i) == SkipSpace(s, start)
    {
      i := i + 1;
    }
    var nameStart := i;
    while i < |s| && !EndsName(s[i])
      invariant nameStart <= i <= |s| && SkipName(s, i) == SkipName(s, nameStart)
    {
      i := i + 1;
    }
    var nameEnd := i;
    var name := s[nameStart..nameEnd];
    if name == "" { return Err(ExpectedScope, nameStart); }
    if !IsScopeName(name) { return Err(UnknownScope, nameStart); }
    while i < |s| && IsSpace(s[i])
      invariant nameEnd <= i <= |s| && SkipSpace(s, i) == SkipSpace(s, nameEnd)
    {
      i := i + 1;
    }
    if i == |s| || s[i] != '(' { return Err(ExpectedOpenParen, i); }
    var bodyStart := i + 1;
    var close := FindClose(s, bodyStart);
    if close.at == |s| {
      if close.depth > 0 { return Err(UnclosedBracket, close.lastOpen); }
      return Err(UnclosedParen, bodyStart - 1);
    }
    var filter := ParseBody(s[bodyStart..close.at], bodyStart);
    if filter.Err? { return Err(filter.kind, filter.position); }
    return Ok(Scoped(name, filter.value, close.at + 1));
  }

  /** `parse_selector`: it returns the tree of which the text is a spelling, or blames a place in the text. */
  method Parse(s: string) returns (r: Result<Selector>)
    ensures r == ParseSelector(s)
    ensures forall a :: r == Ok(a) <==> Spells(s, a)
    ensures r.Ok? ==> WellFormed(r.value) && ParseSelector(Print(r.value)) == Ok(r.value.(raw := Print(r.value)))
    ensures r.Err? ==> 0 <= r.position <= |s|
  {
    hide ConsumeScope, Strip, WellFormedFilter, Print, Spells;
    forall a ensures ParseSelector(s) == Ok(a) <==> Spells(s, a) { AcceptedIffSpelled(s, a); }
    ErrorsPointIntoText(s);
    if ParseSelector(s).Ok? { ParsePrintParse(s); }
    if Strip(s) == "" { return Err(EmptySelector, 0); }
    var one := ReadScope(s, 0);
    if one.Err? { return Err(one.kind, one.position); }
    var i: nat := one.value.after;
    while i < |s| && IsSpace(s[i])
      invariant one.value.after <= i <= |s| && SkipSpace(s, i) == SkipSpace(s, one.value.after)
    {
      i := i + 1;
    }
    if i == |s| { return Ok(SingleScope(one.value, s)); }
    if s[i] != '.' { return Err(UnexpectedCharacter, i); }
    var two := ReadScope(s, i + 1);
    if two.Err? { return Err(two.kind, two.position); }
    var j: nat := two.value.after;
    while j < |s| && IsSpace(s[j])
      invariant two.value.after <= j <= |s| && SkipSpace(s, j) == SkipSpace(s, two.value.after)
    {
      j := j + 1;
    }
    if j < |s| { return Err(TrailingContent, j); }
    if one.value.name != "device" { return Err(ChainWithoutDevice, 0); }
    if two.value.name == "function" {
      return Ok(Selector(DeviceFunction, Some(one.value.filter), Some(two.value.filter), None, s));
    }
    if two.value.name == "event" {
      return Ok(Selector(DeviceEvent, Some(one.value.filter), None, Some(two.value.filter), s));
    }
    return Err(BadChain, i + 1);
  }
}
