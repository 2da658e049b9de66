/**
  Statements as they are written: ordinary characters, protected pieces, casts,
  named sites and placeholders. `bindNamed` and `buildSql` are shown to do to
  every such statement exactly what its segments say.
*/
module SqlTemplates {
  import opened Wrappers
  import opened SqlText
  import opened SqlPieces
  import opened NamedParams
  import S = Slices

  datatype Segment =
    | Char(c: char)
    | Quoted(q: char, units: seq<Unit>)                                   // '…', "…", `…`
    | Bracketed(units: seq<Unit>)                                         // […]
    | Line(text: string)                                                  // --…
    | Block(parts: seq<Part>)                                             // /*…*/
    | Alternative(letter: char, open: char, text: string, close: char)    // q'[…]'
    | Dollar(tag: string, text: string)                                   // $tag$…$tag$
    | Cast                                                                // ::
    | Named(name: string)                                                 // :name
    | Mark                                                                // ?

  /** The segment as written. */
  function Written(g: Segment): string {
    match g
    case Char(c) => [c]
    case Quoted(q, units) => [q] + (Body(units, q) + [q])
    case Bracketed(units) => "[" + (Body(units, ']') + "]")
    case Line(text) => "--" + text
    case Block(parts) => "/*" + (Inside(parts) + "*/")
    case Alternative(letter, open, text, close) => [letter, '\'', open] + (text + [close, '\''])
    case Dollar(tag, text) => DollarTag(tag) + (text + DollarTag(tag))
    case Cast => "::"
    case Named(name) => ":" + name
    case Mark => "?"
  }

  function DollarTag(tag: string): string { "$" + tag + "$" }

  function Text(gs: seq<Segment>): string {
    if gs == [] then "" else Written(gs[0]) + Text(gs[1..])
  }

  /** A word that may be the tag of a dollar quote. */
  predicate TagWord(tag: string) { (tag != "" ==> First(tag[0])) && forall c <- tag :: Next(c) }

  /** Protected pieces, well formed where they stand: both scanners read them alike. */
  predicate Protects(s: string, i: nat, g: Segment) {
    var k := i + |Written(g)|;
    match g
    case Quoted(q, units) => q in "'\"`" && UnitsOk(units, q, true) && !SqlText.At(s, k, q)
    case Bracketed(units) => UnitsOk(units, ']', false) && !SqlText.At(s, k, ']')
    case Line(text) => '\n' !in text && (k == |s| || (k < |s| && s[k] == '\n'))
    case Block(parts) => QuietParts(s, i + 2, parts)
    case Alternative(letter, open, text, close) =>
      letter in "qQ" && Pairs(open, close) && forall y :: i + 3 <= y < k - 2 ==> !Occurs(s, [close, '\''], y)
    case Dollar(tag, text) =>
      TagWord(tag) && forall y :: i + |DollarTag(tag)| <= y < k - |DollarTag(tag)| ==> !Occurs(s, DollarTag(tag), y)
    case _ => false
  }

  predicate IsProtected(g: Segment) {
    g.Quoted? || g.Bracketed? || g.Line? || g.Block? || g.Alternative? || g.Dollar?
  }

  /** The segment stands at i. */
  ghost predicate Standing(s: string, i: nat, g: Segment) { S.At(s, i, Written(g)) }

  // -------------------------------------------------- what the scanners see of a piece

  lemma {:induction false} QuotedPiece(s: string, i: nat, q: char, units: seq<Unit>)
    requires Standing(s, i, Quoted(q, units)) && Protects(s, i, Quoted(q, units))
    ensures i < |s| && s[i] == q && (q == '\'' || q == '"' || q == '`')
    ensures QuoteEnd(s, i + 1, q, true) == Some(i + |Written(Quoted(q, units))|)
  {
    hide QuoteEnd, Body, UnitsOk;
    S.AtSplit(s, i, [q], Body(units, q) + [q]);
    S.AtFirst(s, i, [q]);
    QuotedEnds(s, i + 1, units, q, true);
  }

  lemma {:induction false} BracketedPiece(s: string, i: nat, units: seq<Unit>)
    requires Standing(s, i, Bracketed(units)) && Protects(s, i, Bracketed(units))
    ensures i < |s| && s[i] == '[' && QuoteEnd(s, i + 1, ']', false) == Some(i + |Written(Bracketed(units))|)
  {
    hide QuoteEnd, Body, UnitsOk;
    S.AtSplit(s, i, "[", Body(units, ']') + "]");
    S.AtFirst(s, i, "[");
    QuotedEnds(s, i + 1, units, ']', false);
  }

  lemma {:induction false} LinePiece(s: string, i: nat, text: string)
    requires Standing(s, i, Line(text)) && Protects(s, i, Line(text))
    ensures At2(s, i, '-', '-') && LineEnd(s, i) == i + |Written(Line(text))|
  {
    S.AtSplit(s, i, "--", text);
    S.AtIndex(s, i, "--", 0); S.AtIndex(s, i, "--", 1);
    LineEnds(s, i + 2, text);
    assert LineEnd(s, i) == LineEnd(s, i + 1) == LineEnd(s, i + 2);
  }

  lemma {:induction false} BlockPiece(s: string, i: nat, parts: seq<Part>)
    requires Standing(s, i, Block(parts)) && Protects(s, i, Block(parts))
    ensures At2(s, i, '/', '*') && CommentEnd(s, i + 2, 1) == Some(i + |Written(Block(parts))|)
  {
    hide CommentEnd, Inside, QuietParts;
    S.AtSplit(s, i, "/*", Inside(parts) + "*/");
    S.AtIndex(s, i, "/*", 0); S.AtIndex(s, i, "/*", 1);
    CommentEnds(s, i + 2, parts);
  }

  lemma {:induction false} AlternativePiece(s: string, i: nat, letter: char, open: char, text: string, close: char)
    requires var g := Alternative(letter, open, text, close); Standing(s, i, g) && Protects(s, i, g)
    ensures i + 2 < |s| && (s[i] == 'q' || s[i] == 'Q') && s[i + 1] == '\'' && s[i + 2] == open
    ensures Find(s, [Closer(s[i + 2]), '\''], i + 3) == Some(i + |Written(Alternative(letter, open, text, close))| - 2)
  {
    hide Find, Occurs, Closer;
    var front := [letter, '\'', open];
    S.AtSplit(s, i, front, text + [close, '\'']);
    S.AtIndex(s, i, front, 0); S.AtIndex(s, i, front, 1); S.AtIndex(s, i, front, 2);
    PairsClose(open, close);
    DelimitedEnds(s, i + 3, text, [close, '\'']);
  }

  lemma {:induction false} TagStands(s: string, i: nat, tag: string)
    requires S.At(s, i, DollarTag(tag)) && TagWord(tag)
    ensures var e := i + 1 + |tag|;
      && i < e < |s| && s[i] == '$' && s[e] == '$' && WordEnd(s, i + 1) == e && s[i..e + 1] == DollarTag(tag)
      && (e == i + 1 || First(s[i + 1]))
  {
    hide WordEnd, S.At;
    var e := i + 1 + |tag|;
    S.AtIs(s, i, DollarTag(tag));
    S.AtSplit(s, i, "$" + tag, "$");
    S.AtSplit(s, i, "$", tag);
    S.AtFirst(s, i, "$");
    S.AtFirst(s, e, "$");
    if tag != "" { S.AtFirst(s, i + 1, tag); }
    WordEnds(s, i + 1, tag);
  }

  lemma {:induction false} DollarPiece(s: string, i: nat, tag: string, text: string)
    requires Standing(s, i, Dollar(tag, text)) && Protects(s, i, Dollar(tag, text))
    ensures var e := i + 1 + |tag|;
      && i < e < |s| && s[i] == '$' && s[e] == '$' && WordEnd(s, i + 1) == e && s[i..e + 1] == DollarTag(tag)
      && (e == i + 1 || First(s[i + 1]))
      && Find(s, s[i..e + 1], e + 1) == Some(i + |Written(Dollar(tag, text))| - |DollarTag(tag)|)
  {
    hide Find, WordEnd, Occurs, S.At, TagWord, DollarTag, Written, Protects, Standing;
    var d := DollarTag(tag);
    DollarFacts(s, i, tag, text);
    Enclosed(s, i, d, text);
    S.AtSplit(s, i, d, text + d);
    TagStands(s, i, tag);
    TagLength(tag);
  }

  lemma {:induction false} DollarFacts(s: string, i: nat, tag: string, text: string)
    requires Standing(s, i, Dollar(tag, text)) && Protects(s, i, Dollar(tag, text))
    ensures var d := DollarTag(tag);
      && S.At(s, i, d + (text + d)) && |Written(Dollar(tag, text))| == |d| + |text| + |d| && TagWord(tag)
      && forall y :: i + |d| <= y < i + |d| + |text| ==> !Occurs(s, d, y)
  {
    hide S.At, TagWord, DollarTag, Occurs;
  }

  lemma {:induction false} TagLength(tag: string)
    ensures |DollarTag(tag)| == |tag| + 2
  {
  }

  lemma {:induction false} Enclosed(s: string, i: nat, d: string, text: string)
    requires S.At(s, i, d + (text + d))
    requires forall y :: i + |d| <= y < i + |d| + |text| ==> !Occurs(s, d, y)
    ensures Find(s, d, i + |d|) == Some(i + |d| + |text|)
  {
    hide Find, Occurs;
    S.AtSplit(s, i, d, text + d);
    DelimitedEnds(s, i + |d|, text, d);
  }

  // -------------------------------------------------------------------- bindNamed

  /** An ordinary character for `bindNamed`. */
  predicate Ordinary(s: string, i: nat)
    requires i < |s|
  {
    var c := s[i];
    && c !in "'\"`#?" && (c == '[' ==> i > 0 && (Next(s[i - 1]) || s[i - 1] == ')' || s[i - 1] == ']'))
    && !At2(s, i, '-', '-') && !At2(s, i, '/', '*') && (c in "qQ" && i + 2 < |s| ==> s[i + 1] != '\'')
    && (c == '$' ==> i > 0 && Next(s[i - 1]))
    && (c == ':' && i + 1 < |s| ==> s[i + 1] != ':' && !Next(s[i + 1]))
  }

  /** A segment of a statement with named sites, well formed where it stands. */
  predicate Binds(s: string, i: nat, g: Segment) {
    match g
    case Char(_) => i < |s| && Ordinary(s, i)
    case Cast => true
    case Named(name) => ValidName(name) && (i + 1 + |name| < |s| ==> !Next(s[i + 1 + |name|]))
    case Mark => false
    case Bracketed(_) =>
      Protects(s, i, g) && (0 < i <= |s| ==> !Next(s[i - 1]) && s[i - 1] != ')' && s[i - 1] != ']')
    case Dollar(_, _) => Protects(s, i, g) && (0 < i <= |s| ==> !Next(s[i - 1]))
    case _ => Protects(s, i, g)
  }

  lemma {:induction false} QuoteChars(c: char)
    ensures c in "'\"`" <==> c == '\'' || c == '"' || c == '`'
    ensures c in "'\"`#?" <==> c == '\'' || c == '"' || c == '`' || c == '#' || c == '?'
    ensures c in "qQ" <==> c == 'q' || c == 'Q'
  {
    var a, b, d := "'\"`", "'\"`#?", "qQ";
    assert a[0] in a && a[1] in a && a[2] in a;
    assert b[0] in b && b[1] in b && b[2] in b && b[3] in b && b[4] in b;
    assert d[0] in d && d[1] in d;
  }

  lemma {:induction false} ProtectedBinds(s: string, i: nat, g: Segment)
    requires Standing(s, i, g) && Binds(s, i, g) && IsProtected(g)
    ensures i < |s| && BindStep(s, i) == Raw(i + |Written(g)|)
  {
    hide Standing, Protects, Written, BindStep, QuoteEnd, CommentEnd, LineEnd, Find, WordEnd, DollarTag, Closer;
    match g
    case Quoted(q, units) =>
      QuotedPiece(s, i, q, units);
      StepOverQuote(s, i, q, i + |Written(g)|);
    case Bracketed(units) =>
      BracketedPiece(s, i, units);
      StepOverBracket(s, i, i + |Written(g)|);
    case Line(text) =>
      LinePiece(s, i, text);
      StepOverComment(s, i);
    case Block(parts) =>
      BlockPiece(s, i, parts);
      StepOverComment(s, i);
    case Alternative(letter, open, text, close) =>
      AlternativePiece(s, i, letter, open, text, close);
      StepOverAlternative(s, i);
    case Dollar(tag, text) =>
      DollarPiece(s, i, tag, text);
      StepOverDollar(s, i, i + 1 + |tag|);
  }

  lemma {:induction false} StepOverQuote(s: string, i: nat, q: char, k: nat)
    requires i < |s| && s[i] == q && (q == '\'' || q == '"' || q == '`') && QuoteEnd(s, i + 1, q, true) == Some(k)
    ensures BindStep(s, i) == Raw(k) && ReplaceStep(s, i) == k
  {
    hide QuoteEnd, CommentEnd, LineEnd, Find, WordEnd;
  }

  lemma {:induction false} StepOverBracket(s: string, i: nat, k: nat)
    requires i < |s| && s[i] == '[' && QuoteEnd(s, i + 1, ']', false) == Some(k)
    ensures BracketIdentifier(s, i) ==> BindStep(s, i) == Raw(k)
    ensures !PlainBracket(s, i) ==> ReplaceStep(s, i) == k
  {
    hide QuoteEnd, CommentEnd, LineEnd, Find, WordEnd;
  }

  lemma {:induction false} StepOverComment(s: string, i: nat)
    requires i < |s|
    ensures At2(s, i, '-', '-') ==> BindStep(s, i) == Raw(LineEnd(s, i))
    ensures At2(s, i, '-', '-') ==>
      ReplaceStep(s, i) == if LineEnd(s, i) < |s| then LineEnd(s, i) + 1 else |s|
    ensures At2(s, i, '/', '*') && CommentEnd(s, i + 2, 1).Some? ==>
      BindStep(s, i) == Raw(CommentEnd(s, i + 2, 1).value) && ReplaceStep(s, i) == CommentEnd(s, i + 2, 1).value
  {
    hide QuoteEnd, CommentEnd, Find, WordEnd;
  }

  lemma {:induction false} StepOverAlternative(s: string, i: nat)
    requires i + 2 < |s| && (s[i] == 'q' || s[i] == 'Q') && s[i + 1] == '\''
    requires Find(s, [Closer(s[i + 2]), '\''], i + 3).Some?
    ensures var k := Find(s, [Closer(s[i + 2]), '\''], i + 3).value + 2;
      BindStep(s, i) == Raw(k) && ReplaceStep(s, i) == k
  {
    hide QuoteEnd, CommentEnd, LineEnd, Find, WordEnd, Closer;
  }

  lemma {:induction false} StepOverDollar(s: string, i: nat, e: nat)
    requires i < e < |s| && s[i] == '$' && s[e] == '$' && WordEnd(s, i + 1) == e && (e == i + 1 || First(s[i + 1]))
    requires Find(s, s[i..e + 1], e + 1).Some?
    ensures var k := Find(s, s[i..e + 1], e + 1).value + (e + 1 - i);
      ReplaceStep(s, i) == k && (i == 0 || !Next(s[i - 1]) ==> BindStep(s, i) == Raw(k))
  {
    hide QuoteEnd, CommentEnd, LineEnd, Find, WordEnd;
  }

  /** One iteration of `bindNamed` reads exactly the segment that stands there. */
  lemma {:induction false} SegmentBinds(s: string, i: nat, g: Segment)
    requires Standing(s, i, g) && Binds(s, i, g)
    ensures i < |s| && i + |Written(g)| <= |s|
    ensures BindStep(s, i) == if g.Named? then Site(i + |Written(g)|) else Raw(i + |Written(g)|)
  {
    hide QuoteEnd, CommentEnd, LineEnd, Find, Body, Inside;
    if IsProtected(g) {
      ProtectedBinds(s, i, g);
    } else {
      match g
      case Char(c) =>
        S.AtFirst(s, i, [c]);
        QuoteChars(c);
      case Cast => S.AtIndex(s, i, "::", 0); S.AtIndex(s, i, "::", 1);
      case Named(name) => NamedBinds(s, i, name);
    }
  }

  lemma {:induction false} NamedBinds(s: string, i: nat, name: string)
    requires Standing(s, i, Named(name)) && Binds(s, i, Named(name))
    ensures i < |s| && i + 1 + |name| <= |s| && BindStep(s, i) == Site(i + 1 + |name|)
    ensures s[i + 1..i + 1 + |name|] == name
  {
    hide WordEnd, BindStep, S.At;
    S.AtSplit(s, i, ":", name);
    S.AtFirst(s, i, ":");
    S.AtFirst(s, i + 1, name);
    S.AtIs(s, i + 1, name);
    forall c <- name ensures Next(c) { }
    WordEnds(s, i + 1, name);
    StepOverName(s, i);
  }

  lemma {:induction false} StepOverName(s: string, i: nat)
    requires i + 1 < |s| && s[i] == ':' && First(s[i + 1])
    ensures BindStep(s, i) == Site(WordEnd(s, i + 1))
  {
    hide QuoteEnd, CommentEnd, LineEnd, Find;
    assert WordEnd(s, i + 1) == WordEnd(s, i + 2);
  }

  ghost predicate BindsAll(s: string, i: nat, gs: seq<Segment>)
    decreases |gs|
  {
    gs != [] ==> Binds(s, i, gs[0]) && BindsAll(s, i + |Written(gs[0])|, gs[1..])
  }

  /** The names of the sites, in order. */
  function Sites(gs: seq<Segment>): seq<string> {
    if gs == [] then [] else (if gs[0].Named? then [gs[0].name] else []) + Sites(gs[1..])
  }

  /** The statement with a placeholder for every site. */
  function Positional(gs: seq<Segment>): string {
    if gs == [] then "" else (if gs[0].Named? then "?" else Written(gs[0])) + Positional(gs[1..])
  }

  function Look(names: seq<string>, values: map<string, Value>): seq<Value>
    requires forall n <- names :: n in values
  {
    seq(|names|, k requires 0 <= k < |names| => assert names[k] in names; values[names[k]])
  }

  /** What the scan makes of the segments from i on. */
  ghost predicate BoundTo(b: Bound, gs: seq<Segment>, values: map<string, Value>) {
    if forall n <- Sites(gs) :: n in values then
      b == Bound(Positional(gs), Look(Sites(gs), values), set n | n in Sites(gs))
    else b == Failed
  }

  lemma {:induction false} BoundStep(s: string, i: nat, gs: seq<Segment>, values: map<string, Value>, k: nat)
    requires gs != [] && i < k <= |s| && s[i..k] == Written(gs[0])
    requires BindStep(s, i) == (if gs[0].Named? then Site(k) else Raw(k))
    requires BoundTo(BindFrom(s, k, values), gs[1..], values)
    ensures BoundTo(BindFrom(s, i, values), gs, values)
  {
    hide BindStep, Written;
    if gs[0].Named? {
      var name := gs[0].name;
      assert s[i + 1..k] == name by { SiteName(s, i, k, name); }
      LookCons(name, Sites(gs[1..]), values);
      assert Sites(gs) == [name] + Sites(gs[1..]);
    } else {
      assert Sites(gs) == Sites(gs[1..]);
    }
  }

  lemma {:induction false} SiteName(s: string, i: nat, k: nat, name: string)
    requires i < k <= |s| && s[i..k] == Written(Named(name))
    ensures s[i + 1..k] == name
  {
    assert s[i..k][1..] == s[i + 1..k];
  }

  lemma {:induction false} LookCons(name: string, rest: seq<string>, values: map<string, Value>)
    ensures (forall n <- [name] + rest :: n in values) <==> name in values && forall n <- rest :: n in values
    ensures (set n | n in [name] + rest) == {name} + (set n | n in rest)
    ensures (forall n <- [name] + rest :: n in values) ==>
      Look([name] + rest, values) == [values[name]] + Look(rest, values)
  {
    var all := [name] + rest;
    assert all[0] in all && forall n <- rest :: n in all;
  }

  /** `bindNamed` copies everything but the sites, whatever the protected text contains, and replaces those in order. */
  lemma {:induction false} TemplateBinds(s: string, i: nat, gs: seq<Segment>, values: map<string, Value>)
    requires S.At(s, i, Text(gs)) && i + |Text(gs)| == |s| && BindsAll(s, i, gs)
    ensures BoundTo(BindFrom(s, i, values), gs, values)
    decreases |gs|
  {
    hide BindFrom, BindStep, Binds, BoundTo, Written, S.At;
    if gs == [] {
      NothingBinds(s, values);
    } else {
      var k := i + |Written(gs[0])|;
      S.AtSplit(s, i, Written(gs[0]), Text(gs[1..]));
      SegmentBinds(s, i, gs[0]);
      S.AtIs(s, i, Written(gs[0]));
      TemplateBinds(s, k, gs[1..], values);
      BoundStep(s, i, gs, values, k);
    }
  }

  lemma {:induction false} NothingBinds(s: string, values: map<string, Value>)
    ensures BoundTo(BindFrom(s, |s|, values), [], values)
  {
    assert (set n | n in Sites([])) == {};
  }

  // ------------------------------------------------------------ the parameter list

  /** A letter or an underscore, then letters, digits and underscores. */
  predicate PlainName(name: string) {
    && name != "" && !('0' <= name[0] <= '9')
    && forall c <- name :: 'a' <= c <= 'z' || 'A' <= c <= 'Z' || '0' <= c <= '9' || c == '_'
  }

  predicate NamesOk(params: seq<(string, Value)>) {
    && (forall p <- params :: PlainName(p.0))
    && (forall j, k :: 0 <= j < k < |params| ==> params[j].0 != params[k].0)
  }

  lemma {:induction false} ValuesAre(params: seq<(string, Value)>)
    ensures Values(params).Some? <==> NamesOk(params)
    ensures Values(params).Some? ==>
      && Values(params).value.Keys == (set p | p in params :: p.0)
      && forall p <- params :: p.0 in Values(params).value && Values(params).value[p.0] == p.1
  {
    if params != [] {
      var n := |params| - 1;
      var init, last := params[..n], params[n];
      ValuesAre(init);
      assert params == init + [last];
      assert NamesOk(params) ==> NamesOk(init);
      assert ValidName(last.0) <==> PlainName(last.0) by { NameIs(last.0); }
      if NamesOk(init) {
        assert last.0 in Values(init).value <==> exists j :: 0 <= j < n && params[j].0 == last.0;
        if Values(params).Some? {
          assert forall j :: 0 <= j < n ==> params[j] in init;
        }
      }
    }
  }

  lemma {:induction false} NameIs(name: string)
    ensures ValidName(name) <==> PlainName(name)
  {
    if ValidName(name) {
      forall c <- name ensures Next(c) { }
    } else if PlainName(name) {
      forall k | 0 <= k < |name| ensures Next(name[k]) { assert name[k] in name; }
    }
  }

  /** For every statement made of such segments: binding succeeds exactly when the parameter names are well formed and
      distinct and are exactly the names of the sites, and then each site gets its own value. */
  lemma {:induction false} BindNamedIs(gs: seq<Segment>, params: seq<(string, Value)>)
    requires BindsAll(Text(gs), 0, gs)
    ensures var b := BindNamed(Text(gs), params);
      && (b.Bound? <==> NamesOk(params) && (set p | p in params :: p.0) == (set n | n in Sites(gs)))
      && (b.Bound? ==> b.sql == Positional(gs) && |b.params| == |Sites(gs)|)
      && (b.Bound? ==> forall k, p :: 0 <= k < |b.params| && p in params && p.0 == Sites(gs)[k] ==> b.params[k] == p.1)
  {
    hide BindsAll, BindFrom, Values;
    ValuesAre(params);
    if NamesOk(params) {
      TemplateBinds(Text(gs), 0, gs, Values(params).value);
    }
  }

  // ------------------------------------------------------------------- refusals

  /** A quote or a comment that runs to the end of the text without being closed. */
  ghost predicate Unclosed(s: string, j: nat)
    requires j < |s|
  {
    || (s[j] in "'\"`" &&
        exists us :: UnitsOk(us, s[j], true) && S.At(s, j + 1, Body(us, s[j])) && j + 1 + |Body(us, s[j])| == |s|)
    || (At2(s, j, '/', '*') &&
        exists ps :: QuietParts(s, j + 2, ps) && S.At(s, j + 2, Inside(ps)) && j + 2 + |Inside(ps)| == |s|)
  }

  ghost predicate NoneFrom(s: string, pat: string, i: nat) { forall y: nat :: i <= y ==> !Occurs(s, pat, y) }

  /** A bracketed name, an alternative and a dollar quote whose closing mark never comes. */
  ghost predicate OpenBracket(s: string, j: nat)
    requires j < |s|
  {
    && s[j] == '[' && (j > 0 ==> !Next(s[j - 1]) && s[j - 1] != ')' && s[j - 1] != ']')
    && exists us :: UnitsOk(us, ']', false) && S.At(s, j + 1, Body(us, ']')) && j + 1 + |Body(us, ']')| == |s|
  }

  ghost predicate OpenAlternative(s: string, j: nat)
    requires j < |s|
  {
    && s[j] in "qQ" && j + 2 < |s| && s[j + 1] == '\''
    && exists close :: Pairs(s[j + 2], close) && NoneFrom(s, [close, '\''], j + 3)
  }

  ghost predicate OpenDollar(s: string, j: nat)
    requires j < |s|
  {
    && (j > 0 ==> !Next(s[j - 1]))
    && exists tag ::
         TagWord(tag) && S.At(s, j, DollarTag(tag)) && NoneFrom(s, DollarTag(tag), j + |DollarTag(tag)|)
  }

  lemma {:induction false} OpenBracketIsBad(s: string, j: nat)
    requires j < |s| && OpenBracket(s, j)
    ensures BindStep(s, j).Bad?
  {
    hide QuoteEnd, CommentEnd, LineEnd, Find, WordEnd, Body;
    var us :| UnitsOk(us, ']', false) && S.At(s, j + 1, Body(us, ']')) && j + 1 + |Body(us, ']')| == |s|;
    UnclosedQuote(s, j + 1, us, ']', false);
  }

  lemma {:induction false} OpenAlternativeIsBad(s: string, j: nat)
    requires j < |s| && OpenAlternative(s, j)
    ensures BindStep(s, j).Bad?
  {
    hide QuoteEnd, CommentEnd, LineEnd, Find, WordEnd, Pairs, Closer, Occurs;
    QuoteChars(s[j]);
    var close :| Pairs(s[j + 2], close) && NoneFrom(s, [close, '\''], j + 3);
    PairsClose(s[j + 2], close);
  }

  lemma {:induction false} OpenDollarIsBad(s: string, j: nat)
    requires j < |s| && OpenDollar(s, j)
    ensures BindStep(s, j).Bad?
  {
    hide QuoteEnd, CommentEnd, LineEnd, Find, WordEnd, Occurs, S.At, DollarTag, TagWord;
    var tag :| TagWord(tag) && S.At(s, j, DollarTag(tag)) && NoneFrom(s, DollarTag(tag), j + |DollarTag(tag)|);
    TagStands(s, j, tag);
    TagLength(tag);
    assert Find(s, s[j..j + 2 + |tag|], j + 2 + |tag|).None?;
  }

  /** What `bindNamed` refuses to read: a hash, a placeholder of its own, `:1`, `$1`, or something unclosed. */
  ghost predicate Offends(s: string, j: nat) {
    && j < |s|
    && (|| s[j] == '#' || s[j] == '?' || (s[j] == ':' && j + 1 < |s| && '0' <= s[j + 1] <= '9')
        || (s[j] == '$' && (j == 0 || !Next(s[j - 1])) && (j + 1 < |s| ==> !First(s[j + 1]) && s[j + 1] != '$'))
        || Unclosed(s, j) || OpenBracket(s, j) || OpenAlternative(s, j) || OpenDollar(s, j))
  }

  lemma {:induction false} OffenceIsBad(s: string, j: nat)
    requires Offends(s, j)
    ensures j < |s| && BindStep(s, j).Bad?
  {
    hide QuoteEnd, CommentEnd, LineEnd, Find, WordEnd, Body, Inside, OpenBracket, OpenAlternative, OpenDollar;
    QuoteChars(s[j]);
    if OpenBracket(s, j) {
      OpenBracketIsBad(s, j);
    } else if OpenAlternative(s, j) {
      OpenAlternativeIsBad(s, j);
    } else if OpenDollar(s, j) {
      OpenDollarIsBad(s, j);
    } else if Unclosed(s, j) {
      if s[j] in "'\"`" {
        var us :| UnitsOk(us, s[j], true) && S.At(s, j + 1, Body(us, s[j])) && j + 1 + |Body(us, s[j])| == |s|;
        UnclosedQuote(s, j + 1, us, s[j], true);
      } else {
        var ps :| QuietParts(s, j + 2, ps) && S.At(s, j + 2, Inside(ps)) && j + 2 + |Inside(ps)| == |s|;
        UnclosedComment(s, j + 2, ps);
      }
    }
  }

  /** Behind any statement text such an offence makes binding fail, whatever the parameters. */
  lemma {:induction false} OffenceFails(s: string, i: nat, gs: seq<Segment>, values: map<string, Value>)
    requires S.At(s, i, Text(gs)) && BindsAll(s, i, gs) && Offends(s, i + |Text(gs)|)
    ensures i <= |s| && BindFrom(s, i, values) == Failed
    decreases |gs|
  {
    hide BindStep, Binds, Written, S.At, Offends;
    if gs == [] {
      OffenceIsBad(s, i);
    } else {
      S.AtSplit(s, i, Written(gs[0]), Text(gs[1..]));
      SegmentBinds(s, i, gs[0]);
      OffenceFails(s, i + |Written(gs[0])|, gs[1..], values);
    }
  }
}
