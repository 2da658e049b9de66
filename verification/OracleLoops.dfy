/** The scanning and printing loops behind Oracle's RETURNING suffix. */
module OracleLoops {
  import opened Wrappers
  import opened OracleReturning
  import T = SqlText

  method FindWordEnd(s: string, start: nat) returns (i: nat)
    requires start <= |s|
    ensures i == WordEnd(s, start)
  {
    i := start;
    while i < |s| && WordChar(s[i])
      invariant start <= i <= |s| && WordEnd(s, i) == WordEnd(s, start)
    {
      i := i + 1;
    }
  }

  method PastSpaces(s: string, start: nat) returns (i: nat)
    requires start <= |s|
    ensures i == SkipSpaces(s, start)
  {
    i := start;
    while i < |s| && Space(s[i])
      invariant start <= i <= |s| && SkipSpaces(s, i) == SkipSpaces(s, start)
    {
      i := i + 1;
    }
  }

  /** The first loop of oracleParseReturningInto. */
  method FindReturning(s: string) returns (keyword: Option<nat>)
    ensures keyword == FindKeyword(s, 0, None)
  {
    keyword := None;
    var i := 0;
    while i < |s|
      invariant i <= |s| && FindKeyword(s, i, keyword) == FindKeyword(s, 0, None)
      decreases |s| - i
    {
      if IsQuote(s[i]) {
        var end := T.FindQuoteEnd(s, i + 1, s[i], false);
        i := if end.Some? then end.value else |s|;
      } else if Letter(s[i]) {
        var end := FindWordEnd(s, i);
        if FoldEquals(s[i..end], "RETURNING") { keyword := Some(i); }
        i := end;
      } else {
        i := i + 1;
      }
    }
  }

  method ReadQuotedName(s: string, start: nat) returns (name: string, p: nat)
    requires start <= |s|
    ensures Read(name, p) == ReadQuoted(s, start, "")
  {
    name, p := "", start;
    while p < |s|
      invariant start <= p <= |s| && ReadQuoted(s, p, name) == ReadQuoted(s, start, "")
      decreases |s| - p
    {
      if s[p] == '"' {
        if p + 1 < |s| && s[p + 1] == '"' {
          name, p := name + ['"'], p + 2;
          continue;
        }
        p := p + 1;
        return;
      }
      name, p := name + [s[p]], p + 1;
    }
  }

  method ReadOneName(s: string, p: nat) returns (r: Option<Read<string>>)
    requires p < |s|
    ensures r == ReadName(s, p)
  {
    if s[p] == '"' {
      var name, next := ReadQuotedName(s, p + 1);
      return Some(Read(name, next));
    }
    if !WordChar(s[p]) { return None; }
    var end := FindWordEnd(s, p);
    r := Some(Read(UpperAll(s[p..end]), end));
  }

  /** The column loop. */
  method ReadColumnList(s: string, start: nat) returns (r: Option<Read<seq<string>>>)
    requires start <= |s|
    ensures r == ReadColumns(s, start, [])
  {
    hide ReadName, SkipSpaces;
    var columns: seq<string>, p := [], start;
    while p < |s|
      invariant start <= p <= |s| && ReadColumns(s, p, columns) == ReadColumns(s, start, [])
      decreases |s| - p
    {
      p := PastSpaces(s, p);
      if p >= |s| { return None; }
      var name := ReadOneName(s, p);
      if name.None? { return None; }
      columns := columns + [name.value.value];
      p := PastSpaces(s, name.value.next);
      if p < |s| && s[p] == ',' { p := p + 1; } else { return Some(Read(columns, p)); }
    }
    r := Some(Read(columns, p));
  }

  /** The bind loop. */
  method ReadBindList(s: string, start: nat) returns (r: Option<seq<nat>>)
    requires start <= |s|
    ensures r == ReadBinds(s, start, [])
  {
    hide SkipSpaces;
    var binds: seq<nat>, p := [], start;
    while p < |s|
      invariant start <= p <= |s| && ReadBinds(s, p, binds) == ReadBinds(s, start, [])
      decreases |s| - p
    {
      ghost var at := p;
      p := PastSpaces(s, p);
      if p >= |s| { return Some(binds); }
      if s[p] == ',' { p := p + 1; continue; }
      if s[p] != ':' { return None; }
      p := p + 1;
      ghost var first := p;
      var digits: nat := 0;
      while p < |s| && T.Digit(s[p])
        invariant at < first <= p <= |s| && ReadNumber(s, p, digits) == ReadNumber(s, first, 0)
      {
        digits := (digits * 10 + (s[p] as int - '0' as int)) % WORD;
        p := p + 1;
      }
      binds := binds + [digits];
    }
    r := Some(binds);
  }

  /** oracleParseReturningInto. */
  method ParseReturningInto(s: string) returns (r: Option<Returning>)
    ensures r == Parse(s)
  {
    hide FindKeyword, ReadColumns, ReadBinds, WordEnd, SkipSpaces;
    var keyword := FindReturning(s);
    if keyword.None? { return None; }
    Fits(s);
    var columns := ReadColumnList(s, keyword.value + 9);
    if columns.None? || columns.value.value == [] { return None; }
    var p := PastSpaces(s, columns.value.next);
    var end := FindWordEnd(s, p);
    if !FoldEquals(s[p..end], "INTO") { return None; }
    var binds := ReadBindList(s, end);
    if binds.None? || |binds.value| != |columns.value.value| { return None; }
    r := Some(Returning(columns.value.value, |binds.value|, binds.value[0]));
  }

  lemma Fits(s: string)
    ensures var k := FindKeyword(s, 0, None); k.Some? ==> k.value + 9 <= |s|
  {
  }

  lemma {:induction false} DoubledSnoc(s: string, c: char)
    ensures Doubled(s + [c]) == Doubled(s) + if c == '"' then ['"', '"'] else [c]
  {
    if s == "" {
      assert s + [c] == [c] && [c][1..] == "";
    } else {
      DoubledSnoc(s[1..], c);
      assert (s + [c])[1..] == s[1..] + [c];
    }
  }

  /** quoteIdentifier. */
  method Quote(ident: string) returns (s: string)
    ensures s == QuoteIdentifier(ident)
  {
    s := "\"";
    for i := 0 to |ident|
      invariant s == ['"'] + Doubled(ident[..i])
    {
      DoubledSnoc(ident[..i], ident[i]);
      assert ident[..i + 1] == ident[..i] + [ident[i]];
      if ident[i] == '"' { s := s + "\"\""; } else { s := s + [ident[i]]; }
    }
    assert ident[..|ident|] == ident;
    s := s + ['"'];
  }

  lemma {:induction false} Between(a: string, b: string, c: string)
    ensures a + (", " + (b + ", " + c)) == (a + (", " + b)) + ", " + c
  {
  }

  lemma {:induction false} NamesSnoc(columns: seq<string>, name: string)
    requires columns != []
    ensures Names(columns + [name]) == Names(columns) + ", " + QuoteIdentifier(name)
    decreases |columns|
  {
    hide QuoteIdentifier;
    var all := columns + [name];
    assert all[0] == columns[0] && all[1..] == columns[1..] + [name] && |all| > 1;
    if |columns| == 1 {
      assert all[1..] == [name];
      assert Names(all) == QuoteIdentifier(columns[0]) + (", " + QuoteIdentifier(name));
    } else {
      NamesSnoc(columns[1..], name);
      Between(QuoteIdentifier(columns[0]), Names(columns[1..]), QuoteIdentifier(name));
    }
  }

  lemma {:induction false} BindsSnoc(first: nat, count: nat)
    requires count > 0
    ensures Binds(first, count + 1) == Binds(first, count) + ", " + ([':'] + Decimal((first + count) % WORD))
    decreases count
  {
    hide Decimal;
    var bind := [':'] + Decimal(first % WORD);
    if count == 1 {
      assert Binds(first, 2) == bind + (", " + Binds(first + 1, 1));
    } else {
      BindsSnoc(first + 1, count - 1);
      Between(bind, Binds(first + 1, count - 1), [':'] + Decimal((first + count) % WORD));
    }
  }

  /** oracleMakeReturningSuffix. */
  method MakeSuffix(columns: seq<string>, first: nat) returns (s: string)
    ensures s == Suffix(columns, first)
  {
    hide QuoteIdentifier, Decimal;
    if columns == [] { return ""; }
    var names := "";
    for i := 0 to |columns|
      invariant if i == 0 then names == "" else names == Names(columns[..i])
    {
      if i > 0 {
        NamesSnoc(columns[..i], columns[i]);
        names := names + ", ";
      }
      assert columns[..i + 1] == columns[..i] + [columns[i]];
      var quoted := Quote(columns[i]);
      names := names + quoted;
    }
    assert columns[..|columns|] == columns;
    var binds := "";
    for i := 0 to |columns|
      invariant if i == 0 then binds == "" else binds == Binds(first, i)
    {
      if i > 0 {
        BindsSnoc(first, i);
        binds := binds + ", ";
      }
      binds := binds + ([':'] + Decimal((first + i) % WORD));
    }
    s := " RETURNING " + names + " INTO " + binds;
  }
}
