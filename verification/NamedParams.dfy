/**
  Named parameters: `bindNamed` rewrites `:name` to `?` and collects values in
  order; `replacePlaceholders` later substitutes each `?` outside protected text.
  The two scanners are written independently; `NamedParamsAgree` proves when the
  second finds exactly the sites the first produced.
*/
module NamedParams {
  import opened Wrappers
  import opened SqlText

  /** Parameter values; only their identity matters here. */
  type Value = int

  // ------------------------------------------------------------- bindNamed

  datatype Piece = Bad | Raw(next: nat) | Site(next: nat)

  predicate BracketIdentifier(s: string, i: nat)
    requires i < |s|
  {
    s[i] == '[' && (i == 0 || (!Next(s[i - 1]) && s[i - 1] != ')' && s[i - 1] != ']'))
  }

  /** One iteration of the scan: what starts at i and where it ends. */
  function BindStep(s: string, i: nat): (p: Piece)
    requires i < |s|
    ensures !p.Bad? ==> i < p.next <= |s|
  {
    var c := s[i];
    if c == '\'' || c == '"' || c == '`' || BracketIdentifier(s, i) then
      var e := QuoteEnd(s, i + 1, if c == '[' then ']' else c, c != '[');
      if e.None? then Bad else Raw(e.value)
    else if c == '#' then Bad
    else if c == '-' && At(s, i + 1, '-') then Raw(LineEnd(s, i))
    else if c == '/' && At(s, i + 1, '*') then
      var e := CommentEnd(s, i + 2, 1);
      if e.None? then Bad else Raw(e.value)
    else if (c == 'q' || c == 'Q') && i + 2 < |s| && s[i + 1] == '\'' then
      var e := Find(s, [Closer(s[i + 2]), '\''], i + 3);
      if e.None? then Bad else Raw(e.value + 2)
    else if c == '$' && (i == 0 || !Next(s[i - 1])) then
      var e := if i + 1 < |s| && First(s[i + 1]) then WordEnd(s, i + 1) else i + 1;
      if At(s, e, '$') then
        var close := Find(s, s[i..e + 1], e + 1);
        if close.None? then Bad else Raw(close.value + (e + 1 - i))
      else Bad
    else if c == ':' && At(s, i + 1, ':') then Raw(i + 2)
    else if c == ':' && i + 1 < |s| && First(s[i + 1]) then Site(WordEnd(s, i + 2))
    else if c == '?' || (c == ':' && i + 1 < |s| && Digit(s[i + 1])) then Bad
    else Raw(i + 1)
  }

  datatype Bound = Failed | Bound(sql: string, params: seq<Value>, used: set<string>)

  /** The scan from position i on. */
  function BindFrom(s: string, i: nat, values: map<string, Value>): (b: Bound)
    requires i <= |s|
    decreases |s| - i
  {
    if i == |s| then Bound("", [], {})
    else
      var p := BindStep(s, i);
      if p.Bad? then Failed
      else
        var rest := BindFrom(s, p.next, values);
        if rest.Failed? then Failed
        else if p.Raw? then rest.(sql := s[i..p.next] + rest.sql)
        else
          var name := s[i + 1..p.next];
          if name !in values then Failed
          else Bound("?" + rest.sql, [values[name]] + rest.params, {name} + rest.used)
  }

  predicate ValidName(name: string) {
    name != "" && First(name[0]) && forall k :: 0 <= k < |name| ==> Next(name[k])
  }

  /** The value map, unless a name is malformed or repeated. */
  function Values(params: seq<(string, Value)>): Option<map<string, Value>> {
    if params == [] then Some(map[])
    else
      var rest := Values(params[..|params| - 1]);
      var (name, value) := params[|params| - 1];
      if rest.None? || !ValidName(name) || name in rest.value then None
      else Some(rest.value[name := value])
  }

  function BindNamed(s: string, params: seq<(string, Value)>): Bound {
    var values := Values(params);
    if values.None? then Failed
    else
      var b := BindFrom(s, 0, values.value);
      if b.Failed? || !(values.value.Keys <= b.used) then Failed else b
  }

  // --------------------------------------------------- replacePlaceholders

  predicate OpensTag(s: string, i: nat)
    requires i < |s|
  {
    var e := WordEnd(s, i + 1);
    At(s, e, '$') && (e == i + 1 || !Digit(s[i + 1]))
  }

  predicate PlainBracket(s: string, i: nat)
    requires i < |s|
  {
    i > 0 && (Next(s[i - 1]) || s[i - 1] == ')' || s[i - 1] == ']' || s[i - 1] == '?')
  }

  /** Where the switch leaves the scan position for the next iteration. */
  function ReplaceStep(s: string, i: nat): (next: nat)
    requires i < |s|
    ensures i < next <= |s|
  {
    var c := s[i];
    if c == 'q' || c == 'Q' then
      if i + 2 < |s| && s[i + 1] == '\'' then
        var e := Find(s, [Closer(s[i + 2]), '\''], i + 3);
        if e.Some? then e.value + 2 else i + 1
      else i + 1
    else if c == '$' then
      if OpensTag(s, i) then
        var e := WordEnd(s, i + 1);
        var close := Find(s, s[i..e + 1], e + 1);
        if close.Some? then close.value + (e + 1 - i) else i + 1
      else i + 1
    else if c == '\'' || c == '"' || c == '`' || (c == '[' && !PlainBracket(s, i)) then
      var e := QuoteEnd(s, i + 1, if c == '[' then ']' else c, c != '[');
      if e.Some? then e.value else |s|
    else if c == '-' && At(s, i + 1, '-') then
      var e := LineEnd(s, i);
      if e < |s| then e + 1 else e
    else if c == '/' && At(s, i + 1, '*') then
      var e := CommentEnd(s, i + 2, 1);
      if e.Some? then e.value else |s|
    else i + 1
  }

  /** The text from i on with every placeholder replaced by the visitor's text. */
  function ReplaceFrom(s: string, i: nat, found: nat, visitor: nat -> string): string
    requires i <= |s|
    decreases |s| - i
  {
    if i == |s| then ""
    else if s[i] == '?' then visitor(found) + ReplaceFrom(s, i + 1, found + 1, visitor)
    else s[i..ReplaceStep(s, i)] + ReplaceFrom(s, ReplaceStep(s, i), found, visitor)
  }

  function CountFrom(s: string, i: nat): nat
    requires i <= |s|
    decreases |s| - i
  {
    if i == |s| then 0
    else if s[i] == '?' then 1 + CountFrom(s, i + 1)
    else CountFrom(s, ReplaceStep(s, i))
  }

  /** buildSql: the literal of the k-th value for the k-th placeholder, or a mismatch. */
  function BuildSql(s: string, params: seq<Value>, literal: Value -> string): Option<string> {
    if CountFrom(s, 0) != |params| then None
    else Some(ReplaceFrom(s, 0, 0, (k: nat) => if k < |params| then literal(params[k]) else "?"))
  }
}
