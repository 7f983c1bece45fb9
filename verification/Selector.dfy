/** The selector language: abstract syntax, the parser as recursive functions, the canonical printer and the
    well-formed trees. The parser's loops are in SelectorScanner.dfy, the round trips in SelectorProofs.dfy. */
module Selector {
  import opened Text

  // ----- abstract syntax -----

  /** The values are alternatives; the reserved `children` field is always empty and is left out. */
  datatype KeyFilter = KeyFilter(key: string, values: seq<string>)

  datatype Filter = Filter(nameMatch: Option<string>, keyFilters: seq<KeyFilter>)

  datatype Scope = DeviceOnly | DeviceFunction | DeviceEvent | FunctionOnly | EventOnly

  datatype Selector = Selector(
    scope: Scope, device: Option<Filter>, function_: Option<Filter>, event: Option<Filter>, raw: string)

  datatype ErrorKind =
    | EmptySelector | ExpectedScope | UnknownScope | ExpectedOpenParen | UnclosedBracket | UnclosedParen
    | UnexpectedCharacter | TrailingContent | ChainWithoutDevice | BadChain
    | UnmatchedClose | UnmatchedOpen | EmptyTerm | MultipleNames | InvalidKey
    | EmptyValue | EmptyValueList | EmptyListItem | NestedBrackets | StrayBracket

  /** `SelectorParseError` carries the position it blames. */
  datatype Result<+T> = Ok(value: T) | Err(kind: ErrorKind, position: int) {
    predicate IsFailure() { Err? }
    function PropagateFailure<U>(): Result<U> requires Err? { Err(kind, position) }
    function Extract(): T requires Ok? { value }
  }

  // ----- splitting a filter body on its top-level commas -----

  datatype Term = Term(text: string, offset: int)

  /** `s.rfind(c)`. */
  function RFind(s: string, c: char): (k: int)
    ensures -1 <= k < |s|
    ensures k >= 0 ==> s[k] == c
  {
    if s == "" then -1
    else if s[|s| - 1] == c then |s| - 1
    else RFind(s[..|s| - 1], c)
  }

  /** `_split_top_commas` from position `i` on, with `terms` already cut and `start` opening the current one. */
  function SplitFrom(body: string, base: int, i: nat, depth: nat, start: nat, terms: seq<Term>): Result<seq<Term>>
    requires start <= i <= |body|
    decreases |body| - i
  {
    if i == |body| then
      if depth != 0 then Err(UnmatchedOpen, base + RFind(body, '['))
      else Ok(terms + [Term(body[start..], base + start)])
    else if body[i] == '[' then SplitFrom(body, base, i + 1, depth + 1, start, terms)
    else if body[i] == ']' then
      if depth == 0 then Err(UnmatchedClose, base + i) else SplitFrom(body, base, i + 1, depth - 1, start, terms)
    else if body[i] == ',' && depth == 0 then
      SplitFrom(body, base, i + 1, depth, i + 1, terms + [Term(body[start..i], base + start)])
    else SplitFrom(body, base, i + 1, depth, start, terms)
  }

  // ----- the right-hand side of a key -----

  function ParseItems(raws: seq<string>, base: int, out: seq<string>): Result<seq<string>> {
    if raws == [] then Ok(out)
    else
      var v := Strip(raws[0]);
      if v == "" then Err(EmptyListItem, base)
      else if '[' in v || ']' in v then Err(NestedBrackets, base)
      else ParseItems(raws[1..], base, out + [v])
  }

  function ParseValuePart(value: string, base: int): Result<seq<string>> {
    var v := Strip(value);
    if v == "" then Err(EmptyValue, base)
    else if v[0] == '[' then
      if v[|v| - 1] != ']' then Err(UnclosedBracket, base)
      else
        var inner := Strip(v[1..|v| - 1]);
        if inner == "" then Err(EmptyValueList, base) else ParseItems(Split(inner, ','), base, [])
    else if '[' in v || ']' in v then Err(StrayBracket, base)
    else Ok([v])
  }

  // ----- one filter body -----

  predicate IsKeyChar(c: char) {
    '0' <= c <= '9' || 'a' <= c <= 'z' || 'A' <= c <= 'Z' || c == '_' || c == '-' || c == '.'
  }

  predicate IsValidKey(key: string) {
    key != "" && forall k :: 0 <= k < |key| ==> IsKeyChar(key[k])
  }

  /** The first colon outside brackets from `j` on, or -1. */
  function ColonFrom(t: string, j: nat, depth: int): (k: int)
    requires j <= |t|
    ensures k == -1 || (j <= k < |t| && t[k] == ':')
    decreases |t| - j
  {
    if j == |t| then -1
    else if t[j] == '[' then ColonFrom(t, j + 1, depth + 1)
    else if t[j] == ']' then ColonFrom(t, j + 1, depth - 1)
    else if t[j] == ':' && depth == 0 then j
    else ColonFrom(t, j + 1, depth)
  }

  function ParseKeyed(text: string, colon: nat, at: int): Result<KeyFilter>
    requires colon < |text|
  {
    var key := Strip(text[..colon]);
    if !IsValidKey(key) then Err(InvalidKey, at)
    else
      var values :- ParseValuePart(text[colon + 1..], at + colon + 1);
      Ok(KeyFilter(key, values))
  }

  /** What one comma-separated term adds to the filter built so far. */
  function ParseTerm(term: Term, sofar: Filter): Result<Filter> {
    var text := Strip(term.text);
    var at := term.offset + Leading(term.text);
    if text == "" then Err(EmptyTerm, at)
    else
      var colon := ColonFrom(text, 0, 0);
      if colon < 0 then
        if text == "*" then Ok(sofar)
        else if sofar.nameMatch.Some? then Err(MultipleNames, at)
        else Ok(sofar.(nameMatch := Some(text)))
      else
        var kf :- ParseKeyed(text, colon, at);
        Ok(sofar.(keyFilters := sofar.keyFilters + [kf]))
  }

  function ParseTerms(terms: seq<Term>, sofar: Filter): Result<Filter> {
    if terms == [] then Ok(sofar)
    else
      var next :- ParseTerm(terms[0], sofar);
      ParseTerms(terms[1..], next)
  }

  function ParseFilterBody(body: string, base: int): Result<Filter> {
    if Strip(body) == "" || Strip(body) == "*" then Ok(Filter(None, []))
    else
      var terms :- SplitFrom(body, base, 0, 0, 0, []);
      ParseTerms(terms, Filter(None, []))
  }

  // ----- one scope -----

  function SkipSpace(s: string, i: nat): (r: nat)
    requires i <= |s|
    ensures i <= r <= |s|
    ensures r < |s| ==> !IsSpace(s[r])
    decreases |s| - i
  {
    if i < |s| && IsSpace(s[i]) then SkipSpace(s, i + 1) else i
  }

  predicate EndsName(c: char) {
    c == '(' || c == ' ' || c == '\t'
  }

  function SkipName(s: string, i: nat): (r: nat)
    requires i <= |s|
    ensures i <= r <= |s|
    decreases |s| - i
  {
    if i < |s| && !EndsName(s[i]) then SkipName(s, i + 1) else i
  }

  datatype Close = Close(at: nat, depth: int, lastOpen: int)

  /** The search for the closing parenthesis from `j` on; `at` is the end of the text when there is none. */
  function CloseFrom(s: string, j: nat, depth: int, lastOpen: int): (c: Close)
    requires j <= |s|
    ensures j <= c.at <= |s|
    ensures c.at < |s| ==> s[c.at] == ')' && c.depth == 0
    ensures (depth > 0 ==> 0 <= lastOpen < |s|) ==> (c.depth > 0 ==> 0 <= c.lastOpen < |s|)
    decreases |s| - j
  {
    if j == |s| then Close(j, depth, lastOpen)
    else if s[j] == '[' then CloseFrom(s, j + 1, depth + 1, j)
    else if s[j] == ']' then CloseFrom(s, j + 1, depth - 1, lastOpen)
    else if s[j] == ')' && depth == 0 then Close(j, depth, lastOpen)
    else CloseFrom(s, j + 1, depth, lastOpen)
  }

  datatype Scoped = Scoped(name: string, filter: Filter, after: nat)

  predicate IsScopeName(name: string) {
    name == "device" || name == "function" || name == "event"
  }

  function ConsumeScope(s: string, start: nat): (r: Result<Scoped>)
    requires start <= |s|
    ensures r.Ok? ==> IsScopeName(r.value.name) && start < r.value.after <= |s|
  {
    var nameStart := SkipSpace(s, start);
    var nameEnd := SkipName(s, nameStart);
    var name := s[nameStart..nameEnd];
    if name == "" then Err(ExpectedScope, nameStart)
    else if !IsScopeName(name) then Err(UnknownScope, nameStart)
    else
      var open := SkipSpace(s, nameEnd);
      if open == |s| || s[open] != '(' then Err(ExpectedOpenParen, open)
      else
        var close := CloseFrom(s, open + 1, 0, -1);
        if close.at == |s| then
          if close.depth > 0 then Err(UnclosedBracket, close.lastOpen) else Err(UnclosedParen, open)
        else
          var filter :- ParseFilterBody(s[open + 1..close.at], open + 1);
          Ok(Scoped(name, filter, close.at + 1))
  }

  // ----- a whole selector -----

  function SingleScope(one: Scoped, raw: string): Selector
    requires IsScopeName(one.name)
  {
    if one.name == "device" then Selector(DeviceOnly, Some(one.filter), None, None, raw)
    else if one.name == "function" then Selector(FunctionOnly, None, Some(one.filter), None, raw)
    else Selector(EventOnly, None, None, Some(one.filter), raw)
  }

  function ParseSelector(s: string): Result<Selector> {
    if Strip(s) == "" then Err(EmptySelector, 0)
    else
      var one :- ConsumeScope(s, 0);
      var i := SkipSpace(s, one.after);
      if i == |s| then Ok(SingleScope(one, s))
      else if s[i] != '.' then Err(UnexpectedCharacter, i)
      else
        var two :- ConsumeScope(s, i + 1);
        var j := SkipSpace(s, two.after);
        if j < |s| then Err(TrailingContent, j)
        else if one.name != "device" then Err(ChainWithoutDevice, 0)
        else if two.name == "function" then
          Ok(Selector(DeviceFunction, Some(one.filter), Some(two.filter), None, s))
        else if two.name == "event" then
          Ok(Selector(DeviceEvent, Some(one.filter), None, Some(two.filter), s))
        else Err(BadChain, i + 1)
  }

  // ----- the canonical printer -----

  function PrintValues(values: seq<string>): string {
    if |values| == 1 && ')' !in values[0] then values[0] else "[" + Join(values, ',') + "]"
  }

  function PrintKeyFilter(kf: KeyFilter): string {
    kf.key + ":" + PrintValues(kf.values)
  }

  function PrintKeyFilters(kfs: seq<KeyFilter>): (ts: seq<string>)
    ensures |ts| == |kfs|
  {
    if kfs == [] then [] else [PrintKeyFilter(kfs[0])] + PrintKeyFilters(kfs[1..])
  }

  function PrintTerms(f: Filter): seq<string> {
    (if f.nameMatch.Some? then [f.nameMatch.value] else []) + PrintKeyFilters(f.keyFilters)
  }

  function PrintBody(f: Filter): string {
    if PrintTerms(f) == [] then "*" else Join(PrintTerms(f), ',')
  }

  function PrintScope(name: string, f: Filter): string {
    name + "(" + PrintBody(f) + ")"
  }

  function Print(a: Selector): string
    requires ScopeAgrees(a)
  {
    match a.scope
    case DeviceOnly => PrintScope("device", a.device.value)
    case FunctionOnly => PrintScope("function", a.function_.value)
    case EventOnly => PrintScope("event", a.event.value)
    case DeviceFunction => PrintScope("device", a.device.value) + "." + PrintScope("function", a.function_.value)
    case DeviceEvent => PrintScope("device", a.device.value) + "." + PrintScope("event", a.event.value)
  }

  // ----- well-formed trees -----

  /** The bracket depth after reading `s` from `depth`, or None when a bracket closes nothing or one of the
      `stops` occurs outside brackets. */
  function Reads(s: string, depth: nat, stops: set<char>): Option<nat> {
    if s == "" then Some(depth)
    else if s[0] == '[' then Reads(s[1..], depth + 1, stops)
    else if s[0] == ']' then if depth == 0 then None else Reads(s[1..], depth - 1, stops)
    else if depth == 0 && s[0] in stops then None
    else Reads(s[1..], depth, stops)
  }

  predicate WellFormedValue(v: string) {
    v != "" && Trimmed(v) && '[' !in v && ']' !in v && ',' !in v
  }

  predicate WellFormedKeyFilter(kf: KeyFilter) {
    IsValidKey(kf.key) && |kf.values| >= 1 && forall k :: 0 <= k < |kf.values| ==> WellFormedValue(kf.values[k])
  }

  /** A name balances its brackets and holds no comma, colon or closing parenthesis outside them. */
  predicate WellFormedName(n: string) {
    n != "" && n != "*" && Trimmed(n) && Reads(n, 0, {',', ':', ')'}) == Some(0)
  }

  predicate WellFormedFilter(f: Filter) {
    && (f.nameMatch.Some? ==> WellFormedName(f.nameMatch.value))
    && forall k :: 0 <= k < |f.keyFilters| ==> WellFormedKeyFilter(f.keyFilters[k])
  }

  /** Exactly the axes that the scope names are present. */
  predicate ScopeAgrees(a: Selector) {
    && (a.device.Some? <==> a.scope.DeviceOnly? || a.scope.DeviceFunction? || a.scope.DeviceEvent?)
    && (a.function_.Some? <==> a.scope.FunctionOnly? || a.scope.DeviceFunction?)
    && (a.event.Some? <==> a.scope.EventOnly? || a.scope.DeviceEvent?)
  }

  predicate WellFormed(a: Selector) {
    && ScopeAgrees(a)
    && (a.device.Some? ==> WellFormedFilter(a.device.value))
    && (a.function_.Some? ==> WellFormedFilter(a.function_.value))
    && (a.event.Some? ==> WellFormedFilter(a.event.value))
  }
}
