/** The two scans as the loops of the source, proved equal to the functions the theorems speak of. */
module NamedParamsLoops {
  import opened Wrappers
  import opened SqlText
  import opened NamedParams

  lemma {:induction false} BadPrefix(params: seq<(string, Value)>, k: nat)
    requires k <= |params| && Values(params[..k]).None?
    ensures Values(params).None?
  {
    if k < |params| {
      var shorter := params[..|params| - 1];
      assert shorter[..k] == params[..k];
      BadPrefix(shorter, k);
    } else {
      assert params[..k] == params;
    }
  }

  method CollectValues(params: seq<(string, Value)>) returns (r: Option<map<string, Value>>)
    ensures r == Values(params)
  {
    var values: map<string, Value> := map[];
    for k := 0 to |params|
      invariant Values(params[..k]) == Some(values)
    {
      var (name, value) := params[k];
      assert params[..k + 1][..k] == params[..k] && params[..k + 1][k] == params[k];
      if !ValidName(name) || name in values {
        BadPrefix(params, k + 1);
        return None;
      }
      values := values[name := value];
    }
    assert params[..|params|] == params;
    return Some(values);
  }

  method ScanPiece(s: string, i: nat) returns (p: Piece)
    requires i < |s|
    ensures p == BindStep(s, i)
  {
    hide QuoteEnd, LineEnd, CommentEnd, Find, WordEnd, Occurs;
    var c := s[i];
    if c == '\'' || c == '"' || c == '`' || BracketIdentifier(s, i) {
      var e := FindQuoteEnd(s, i + 1, if c == '[' then ']' else c, c != '[');
      return if e.None? then Bad else Raw(e.value);
    } else if c == '#' {
      return Bad;
    } else if c == '-' && i + 1 < |s| && s[i + 1] == '-' {
      var e := FindLineEnd(s, i);
      return Raw(e);
    } else if c == '/' && i + 1 < |s| && s[i + 1] == '*' {
      var e := FindCommentEnd(s, i + 2);
      return if e.None? then Bad else Raw(e.value);
    } else if (c == 'q' || c == 'Q') && i + 2 < |s| && s[i + 1] == '\'' {
      var e := FindText(s, [Closer(s[i + 2]), '\''], i + 3);
      return if e.None? then Bad else Raw(e.value + 2);
    } else if c == '$' && (i == 0 || !Next(s[i - 1])) {
      var e := i + 1;
      if e < |s| && First(s[e]) { e := FindWordEnd(s, e); }
      if e < |s| && s[e] == '$' {
        var close := FindText(s, s[i..e + 1], e + 1);
        return if close.None? then Bad else Raw(close.value + (e + 1 - i));
      }
      return Bad;
    } else if c == ':' && i + 1 < |s| && s[i + 1] == ':' {
      return Raw(i + 2);
    } else if c == ':' && i + 1 < |s| && First(s[i + 1]) {
      var e := FindWordEnd(s, i + 2);
      return Site(e);
    } else if c == '?' || (c == ':' && i + 1 < |s| && Digit(s[i + 1])) {
      return Bad;
    }
    return Raw(i + 1);
  }

  /** What has been emitted so far, followed by what the rest of the scan yields. */
  function Then(sql: string, params: seq<Value>, used: set<string>, rest: Bound): Bound {
    if rest.Failed? then Failed else Bound(sql + rest.sql, params + rest.params, used + rest.used)
  }

  lemma ThenRaw(s: string, i: nat, values: map<string, Value>, sql: string, params: seq<Value>, used: set<string>)
    requires i < |s| && BindStep(s, i).Raw?
    ensures var k := BindStep(s, i).next;
      Then(sql, params, used, BindFrom(s, i, values)) == Then(sql + s[i..k], params, used, BindFrom(s, k, values))
  {
    hide BindStep;
    var k := BindStep(s, i).next;
    var rest := BindFrom(s, k, values);
    if rest.Bound? { assert sql + (s[i..k] + rest.sql) == (sql + s[i..k]) + rest.sql; }
  }

  lemma ThenSite(s: string, i: nat, values: map<string, Value>, sql: string, params: seq<Value>, used: set<string>)
    requires i < |s| && BindStep(s, i).Site?
    ensures var k := BindStep(s, i).next; var name := s[i + 1..k];
      Then(sql, params, used, BindFrom(s, i, values)) ==
        if name in values
        then Then(sql + "?", params + [values[name]], used + {name}, BindFrom(s, k, values))
        else Failed
  {
    hide BindStep;
    var k := BindStep(s, i).next;
    var name, rest := s[i + 1..k], BindFrom(s, k, values);
    if rest.Bound? && name in values {
      assert sql + ("?" + rest.sql) == (sql + "?") + rest.sql;
      assert params + ([values[name]] + rest.params) == (params + [values[name]]) + rest.params;
      assert used + ({name} + rest.used) == (used + {name}) + rest.used;
    }
  }

  lemma BadPiece(s: string, i: nat, values: map<string, Value>)
    requires i < |s| && BindStep(s, i).Bad?
    ensures BindFrom(s, i, values).Failed?
  {
    hide BindStep;
  }

  method Bind(s: string, entries: seq<(string, Value)>) returns (b: Bound)
    ensures b == BindNamed(s, entries)
  {
    var values := CollectValues(entries);
    if values.None? { return Failed; }
    var sql, params, used, i := "", [], {}, 0;
    assert BindFrom(s, 0, values.value) == Then(sql, params, used, BindFrom(s, i, values.value)) by {
      hide BindFrom, BindStep;
      var all := BindFrom(s, 0, values.value);
      if all.Bound? { assert "" + all.sql == all.sql && [] + all.params == all.params && {} + all.used == all.used; }
    }
    while i < |s|
      invariant i <= |s|
      invariant BindFrom(s, 0, values.value) == Then(sql, params, used, BindFrom(s, i, values.value))
      decreases |s| - i
    {
      var p := ScanPiece(s, i);
      if p.Bad? {
        BadPiece(s, i, values.value);
        return Failed;
      }
      hide BindStep, BindFrom;
      if p.Site? {
        ThenSite(s, i, values.value, sql, params, used);
        var name := s[i + 1..p.next];
        if name !in values.value { return Failed; }
        params := params + [values.value[name]];
        used := used + {name};
        sql := sql + "?";
      } else {
        ThenRaw(s, i, values.value, sql, params, used);
        sql := sql + s[i..p.next];
      }
      i := p.next;
    }
    assert BindFrom(s, |s|, values.value) == Bound("", [], {});
    assert Then(sql, params, used, Bound("", [], {})) == Bound(sql, params, used);
    if !(values.value.Keys <= used) { return Failed; }
    return Bound(sql, params, used);
  }

  method SkipProtected(s: string, i: nat) returns (next: nat)
    requires i < |s|
    ensures next == ReplaceStep(s, i)
  {
    hide QuoteEnd, LineEnd, CommentEnd, Find, WordEnd, Occurs;
    var c := s[i];
    if c == 'q' || c == 'Q' {
      if i + 2 < |s| && s[i + 1] == '\'' {
        var e := FindText(s, [Closer(s[i + 2]), '\''], i + 3);
        if e.Some? { return e.value + 2; }
      }
    } else if c == '$' {
      var e := FindWordEnd(s, i + 1);
      if e < |s| && s[e] == '$' && (e == i + 1 || !Digit(s[i + 1])) {
        var close := FindText(s, s[i..e + 1], e + 1);
        if close.Some? { return close.value + (e + 1 - i); }
      }
    } else if c == '\'' || c == '"' || c == '`' || (c == '[' && !PlainBracket(s, i)) {
      var e := FindQuoteEnd(s, i + 1, if c == '[' then ']' else c, c != '[');
      return if e.Some? then e.value else |s|;
    } else if c == '-' && i + 1 < |s| && s[i + 1] == '-' {
      var e := FindLineEnd(s, i);
      return if e < |s| then e + 1 else e;
    } else if c == '/' && i + 1 < |s| && s[i + 1] == '*' {
      var e := FindCommentEnd(s, i + 2);
      return if e.Some? then e.value else |s|;
    }
    return i + 1;
  }

  lemma CopyOn(s: string, from: nat, i: nat, out: string, found: nat, visitor: nat -> string)
    requires from <= i < |s| && s[i] != '?'
    ensures var k := ReplaceStep(s, i);
      && (out + s[from..i]) + ReplaceFrom(s, i, found, visitor)
         == (out + s[from..k]) + ReplaceFrom(s, k, found, visitor)
      && CountFrom(s, i) == CountFrom(s, k)
  {
    hide ReplaceStep;
    var k := ReplaceStep(s, i);
    var rest := ReplaceFrom(s, k, found, visitor);
    assert (out + s[from..i]) + (s[i..k] + rest) == (out + (s[from..i] + s[i..k])) + rest;
    assert s[from..i] + s[i..k] == s[from..k];
  }

  lemma Substitute(s: string, from: nat, i: nat, out: string, found: nat, visitor: nat -> string)
    requires from <= i < |s| && s[i] == '?'
    ensures (out + s[from..i]) + ReplaceFrom(s, i, found, visitor) ==
      (out + s[from..i] + visitor(found) + s[i + 1..i + 1]) + ReplaceFrom(s, i + 1, found + 1, visitor)
    ensures CountFrom(s, i) == 1 + CountFrom(s, i + 1)
  {
    var rest := ReplaceFrom(s, i + 1, found + 1, visitor);
    assert s[i + 1..i + 1] == "";
    assert (out + s[from..i]) + (visitor(found) + rest) == (out + s[from..i] + visitor(found)) + rest;
  }

  /** Ordinary text is copied in spans; only placeholders interrupt them. */
  method ReplacePlaceholders(s: string, visitor: nat -> string) returns (out: string, found: nat)
    ensures out == ReplaceFrom(s, 0, 0, visitor) && found == CountFrom(s, 0)
  {
    out, found := "", 0;
    var i, literalStart := 0, 0;
    assert ("" + s[0..0]) + ReplaceFrom(s, 0, 0, visitor) == ReplaceFrom(s, 0, 0, visitor);
    while i < |s|
      invariant literalStart <= i <= |s|
      invariant (out + s[literalStart..i]) + ReplaceFrom(s, i, found, visitor) == ReplaceFrom(s, 0, 0, visitor)
      invariant found + CountFrom(s, i) == CountFrom(s, 0)
      decreases |s| - i
    {
      hide ReplaceStep, ReplaceFrom, CountFrom;
      if s[i] == '?' {
        Substitute(s, literalStart, i, out, found, visitor);
        out := out + s[literalStart..i] + visitor(found);
        found := found + 1;
        i := i + 1;
        literalStart := i;
      } else {
        var next := SkipProtected(s, i);
        CopyOn(s, literalStart, i, out, found, visitor);
        i := next;
      }
    }
    assert ReplaceFrom(s, |s|, found, visitor) == "" && s[literalStart..i] == s[literalStart..];
    out := out + s[literalStart..];
  }

  method Build(s: string, params: seq<Value>, literal: Value -> string) returns (r: Option<string>)
    ensures r == BuildSql(s, params, literal)
  {
    var out, used := ReplacePlaceholders(s, (k: nat) => if k < |params| then literal(params[k]) else "?");
    if used != |params| { return None; }
    return Some(out);
  }
}
