/** Conversely: every text that `bindNamed` accepts is a statement made of segments, and binding does what they say. */
module SqlTemplatesOf {
  import opened Wrappers
  import opened SqlText
  import opened SqlPieces
  import opened NamedParams
  import opened SqlTemplates
  import S = Slices

  lemma {:induction false} ThreeParts(s: string, i: nat, a: nat, b: nat, k: nat)
    requires i <= a <= b <= k <= |s|
    ensures s[i..k] == s[i..a] + (s[a..b] + s[b..k])
  {
  }

  // ---------------------------------------------------------------- comments

  /** The inside of a comment that closes: up to its own closing mark it is text and comments within. */
  lemma {:induction false} CommentIs(s: string, i: nat, depth: nat) returns (ps: seq<Part>, j: nat)
    requires i <= |s| && depth > 0 && CommentEnd(s, i, depth).Some?
    ensures i <= j && At2(s, j, '*', '/') && s[i..j] == Inside(ps) && QuietParts(s, i, ps)
    ensures CommentEnd(s, i, depth) == CommentEnd(s, j + 2, depth - 1)
    decreases |s| - i
  {
    if At2(s, i, '/', '*') {
      var inner, m := CommentIs(s, i + 2, depth + 1);
      var rest;
      rest, j := CommentIs(s, m + 2, depth);
      ps := [Nested(inner)] + rest;
      NestedFirst(s, i, inner, m, rest, j);
    } else if At2(s, i, '*', '/') {
      ps, j := [], i;
    } else {
      var rest;
      rest, j := CommentIs(s, i + 1, depth);
      ps := [Words([s[i]])] + rest;
      WordFirst(s, i, rest, j);
    }
  }

  lemma {:induction false} NestedFirst(s: string, i: nat, inner: seq<Part>, m: nat, rest: seq<Part>, j: nat)
    requires i + 2 <= m && At2(s, i, '/', '*') && At2(s, m, '*', '/') && m + 2 <= j <= |s|
    requires s[i + 2..m] == Inside(inner) && QuietParts(s, i + 2, inner)
    requires s[m + 2..j] == Inside(rest) && QuietParts(s, m + 2, rest)
    ensures var ps := [Nested(inner)] + rest; s[i..j] == Inside(ps) && QuietParts(s, i, ps)
  {
    var ps := [Nested(inner)] + rest;
    assert ps[1..] == rest;
    var text := "/*" + (Inside(inner) + "*/");
    assert s[i..m + 2] == text by {
      assert s[i..i + 2] == "/*" && s[m..m + 2] == "*/";
      ThreeParts(s, i, i + 2, m, m + 2);
    }
    assert s[i..j] == s[i..m + 2] + s[m + 2..j];
    assert PartText(Nested(inner)) == text && |text| == m + 2 - i;
  }

  lemma {:induction false} WordFirst(s: string, i: nat, rest: seq<Part>, j: nat)
    requires i < |s| && !At2(s, i, '/', '*') && !At2(s, i, '*', '/') && i + 1 <= j <= |s|
    requires s[i + 1..j] == Inside(rest) && QuietParts(s, i + 1, rest)
    ensures var ps := [Words([s[i]])] + rest; s[i..j] == Inside(ps) && QuietParts(s, i, ps)
  {
    var ps := [Words([s[i]])] + rest;
    assert ps[1..] == rest && PartText(ps[0]) == [s[i]];
    assert s[i..j] == [s[i]] + s[i + 1..j];
  }

  // ---------------------------------------------------------------- one segment

  lemma {:induction false} LineIs(s: string, i: nat)
    requires i <= |s|
    ensures '\n' !in s[i..LineEnd(s, i)]
    decreases |s| - i
  {
    if i < |s| && s[i] != '\n' {
      LineIs(s, i + 1);
      assert s[i..LineEnd(s, i)] == [s[i]] + s[i + 1..LineEnd(s, i + 1)];
    }
  }

  /** What stands at i, once it is known to be the segment's text up to k. */
  ghost predicate Reads(s: string, i: nat, g: Segment, k: nat) {
    i < k <= |s| && s[i..k] == Written(g) && Binds(s, i, g)
  }

  lemma {:induction false} ReadQuote(s: string, i: nat, k: nat) returns (g: Segment)
    requires i < |s| && (s[i] == '\'' || s[i] == '"' || s[i] == '`') && QuoteEnd(s, i + 1, s[i], true) == Some(k)
    ensures Reads(s, i, g, k)
  {
    hide Body;
    var us := QuotedIs(s, i + 1, s[i], true);
    g := Quoted(s[i], us);
    QuoteChars(s[i]);
    assert s[i..k] == [s[i]] + s[i + 1..k];
  }

  lemma {:induction false} ReadBracket(s: string, i: nat, k: nat) returns (g: Segment)
    requires i < |s| && BracketIdentifier(s, i) && QuoteEnd(s, i + 1, ']', false) == Some(k)
    ensures Reads(s, i, g, k)
  {
    hide Body;
    var us := QuotedIs(s, i + 1, ']', false);
    g := Bracketed(us);
    assert s[i..k] == [s[i]] + s[i + 1..k];
  }

  lemma {:induction false} ReadLine(s: string, i: nat) returns (g: Segment)
    requires At2(s, i, '-', '-')
    ensures Reads(s, i, g, LineEnd(s, i))
  {
    assert LineEnd(s, i) == LineEnd(s, i + 1) == LineEnd(s, i + 2);
    var k := LineEnd(s, i);
    LineIs(s, i + 2);
    g := Line(s[i + 2..k]);
    assert s[i..k] == s[i..i + 2] + s[i + 2..k] && s[i..i + 2] == "--";
  }

  lemma {:induction false} ReadBlock(s: string, i: nat, k: nat) returns (g: Segment)
    requires At2(s, i, '/', '*') && CommentEnd(s, i + 2, 1) == Some(k)
    ensures Reads(s, i, g, k)
  {
    hide Inside, QuietParts;
    var ps, j := CommentIs(s, i + 2, 1);
    assert k == j + 2;
    g := Block(ps);
    assert s[i..i + 2] == "/*" && s[j..k] == "*/";
    ThreeParts(s, i, i + 2, j, k);
  }

  lemma {:induction false} ReadAlternative(s: string, i: nat, y: nat) returns (g: Segment)
    requires i + 2 < |s| && (s[i] == 'q' || s[i] == 'Q') && s[i + 1] == '\''
    requires Find(s, [Closer(s[i + 2]), '\''], i + 3) == Some(y)
    ensures Reads(s, i, g, y + 2)
  {
    hide Find;
    var close := Closer(s[i + 2]);
    g := Alternative(s[i], s[i + 2], s[i + 3..y], close);
    QuoteChars(s[i]);
    ClosePairs(s[i + 2]);
    assert s[i..i + 3] == [s[i], '\'', s[i + 2]] && s[y..y + 2] == [close, '\''];
    assert s[i..y + 2] == s[i..i + 3] + (s[i + 3..y] + s[y..y + 2]);
  }

  lemma {:induction false} ClosePairs(open: char)
    ensures Pairs(open, Closer(open))
  {
  }

  lemma {:induction false} TagIs(s: string, i: nat, e: nat)
    requires i < e < |s| && s[i] == '$' && s[e] == '$'
    requires e == (if First(s[i + 1]) then WordEnd(s, i + 1) else i + 1)
    ensures DollarTag(s[i + 1..e]) == s[i..e + 1] && TagWord(s[i + 1..e])
  {
    hide WordEnd;
    assert s[i..e + 1] == [s[i]] + s[i + 1..e] + [s[e]];
  }

  lemma {:induction false} Enclosing(s: string, i: nat, e: nat, y: nat, d: string)
    requires i < e < y < |s| && d == s[i..e + 1] && Occurs(s, d, y)
    ensures s[i..y + |d|] == d + (s[e + 1..y] + d)
  {
    ThreeParts(s, i, e + 1, y, y + |d|);
  }

  lemma {:induction false} ReadDollar(s: string, i: nat, e: nat, y: nat) returns (g: Segment)
    requires i < e < |s| && s[i] == '$' && s[e] == '$' && (i == 0 || !Next(s[i - 1]))
    requires e == (if First(s[i + 1]) then WordEnd(s, i + 1) else i + 1) && Find(s, s[i..e + 1], e + 1) == Some(y)
    ensures Reads(s, i, g, y + (e + 1 - i))
  {
    hide Find, WordEnd, Occurs, DollarTag, TagWord, Reads;
    var tag, d := s[i + 1..e], s[i..e + 1];
    TagIs(s, i, e);
    Fits(s, d, y);
    g := Dollar(tag, s[e + 1..y]);
    Enclosing(s, i, e, y, d);
    DollarAssembles(s, i, tag, s[e + 1..y]);
  }

  lemma {:induction false} DollarAssembles(s: string, i: nat, tag: string, text: string)
    requires var d := DollarTag(tag); var k := i + |d| + |text| + |d|;
      && i < k <= |s| && s[i..k] == d + (text + d) && TagWord(tag) && (i == 0 || !Next(s[i - 1]))
      && forall y :: i + |d| <= y < i + |d| + |text| ==> !Occurs(s, d, y)
    ensures Reads(s, i, Dollar(tag, text), i + |DollarTag(tag)| + |text| + |DollarTag(tag)|)
  {
    hide Occurs, DollarTag, TagWord;
  }

  lemma {:induction false} Fits(s: string, pat: string, y: nat)
    requires Occurs(s, pat, y) && pat != ""
    ensures y < |s| && y + |pat| <= |s|
  {
  }

  lemma {:induction false} ReadName(s: string, i: nat, k: nat) returns (g: Segment)
    requires i + 1 < |s| && s[i] == ':' && First(s[i + 1]) && k == WordEnd(s, i + 2)
    ensures Reads(s, i, g, k)
  {
    hide WordEnd;
    g := Named(s[i + 1..k]);
    assert s[i..k] == [s[i]] + s[i + 1..k];
    assert forall x :: i + 1 <= x < k ==> Next(s[x]);
  }

  lemma {:induction false} ReadOther(s: string, i: nat) returns (g: Segment)
    requires i < |s| && BindStep(s, i) == Raw(i + 1)
    requires !(s[i] == '\'' || s[i] == '"' || s[i] == '`' || BracketIdentifier(s, i))
    requires !At2(s, i, '-', '-') && !At2(s, i, '/', '*') && !At2(s, i, ':', ':')
    requires !((s[i] == 'q' || s[i] == 'Q') && i + 2 < |s| && s[i + 1] == '\'')
    requires !(s[i] == '$' && (i == 0 || !Next(s[i - 1])))
    ensures Reads(s, i, g, i + 1)
  {
    hide QuoteEnd, CommentEnd, LineEnd, Find, WordEnd;
    g := Char(s[i]);
    QuoteChars(s[i]);
    assert s[i..i + 1] == [s[i]];
  }

  /** Every iteration that does not fail reads a segment. */
  lemma {:induction false} StepReads(s: string, i: nat) returns (g: Segment)
    requires i < |s| && !BindStep(s, i).Bad?
    ensures Reads(s, i, g, BindStep(s, i).next) && (g.Named? <==> BindStep(s, i).Site?)
  {
    hide QuoteEnd, CommentEnd, LineEnd, Find, WordEnd, Written, Binds, Closer;
    var c, k := s[i], BindStep(s, i).next;
    if c == '\'' || c == '"' || c == '`' { g := ReadQuote(s, i, k); }
    else if BracketIdentifier(s, i) { g := ReadBracket(s, i, k); }
    else if At2(s, i, '-', '-') { g := ReadLine(s, i); }
    else if At2(s, i, '/', '*') { g := ReadBlock(s, i, k); }
    else if (c == 'q' || c == 'Q') && i + 2 < |s| && s[i + 1] == '\'' {
      g := ReadAlternative(s, i, k - 2);
    } else if c == '$' && (i == 0 || !Next(s[i - 1])) {
      g := ReadDollarStep(s, i);
    } else if At2(s, i, ':', ':') {
      g := Cast;
      CastReads(s, i);
    } else if c == ':' && i + 1 < |s| && First(s[i + 1]) {
      g := ReadName(s, i, k);
    } else {
      g := ReadOther(s, i);
    }
    SameKind(s, i, g);
  }

  lemma {:induction false} SameKind(s: string, i: nat, g: Segment)
    requires i < |s| && !BindStep(s, i).Bad? && Reads(s, i, g, BindStep(s, i).next)
    ensures g.Named? <==> BindStep(s, i).Site?
  {
    hide BindStep, Binds;
    assert Standing(s, i, g) by { Stands(s, i, g, BindStep(s, i).next); }
    SegmentBinds(s, i, g);
  }

  lemma {:induction false} Stands(s: string, i: nat, g: Segment, k: nat)
    requires i < k <= |s| && s[i..k] == Written(g)
    ensures Standing(s, i, g)
  {
    hide Written;
    forall x | 0 <= x < |Written(g)| ensures s[i + x] == Written(g)[x] { assert s[i..k][x] == s[i + x]; }
  }

  lemma {:induction false} CastReads(s: string, i: nat)
    requires At2(s, i, ':', ':')
    ensures Reads(s, i, Cast, i + 2)
  {
    assert s[i..i + 2] == "::";
  }

  lemma {:induction false} ReadDollarStep(s: string, i: nat) returns (g: Segment)
    requires i < |s| && s[i] == '$' && (i == 0 || !Next(s[i - 1])) && !BindStep(s, i).Bad?
    ensures BindStep(s, i).Raw? && Reads(s, i, g, BindStep(s, i).next)
  {
    hide QuoteEnd, CommentEnd, LineEnd, Find, WordEnd, Written, Binds;
    var e := if i + 1 < |s| && First(s[i + 1]) then WordEnd(s, i + 1) else i + 1;
    g := ReadDollar(s, i, e, Find(s, s[i..e + 1], e + 1).value);
  }

  // ------------------------------------------------------------------ whole texts

  /** A text that the scan accepts is made of segments. */
  lemma {:induction false} TemplateOf(s: string, i: nat, values: map<string, Value>) returns (gs: seq<Segment>)
    requires i <= |s| && BindFrom(s, i, values).Bound?
    ensures Text(gs) == s[i..] && BindsAll(s, i, gs)
    decreases |s| - i
  {
    hide BindStep, Binds, Written;
    if i == |s| {
      gs := [];
    } else {
      var g := StepReads(s, i);
      var k := BindStep(s, i).next;
      var rest := TemplateOf(s, k, values);
      gs := [g] + rest;
      assert gs[1..] == rest && s[i..] == s[i..k] + s[k..];
    }
  }

  /** For every text and every parameter list: binding succeeds if and only if the text is made of segments whose sites
      are exactly the well-formed, distinct parameter names, and then yields what the segments say. */
  lemma {:induction false} BindNamedIff(s: string, params: seq<(string, Value)>)
    ensures BindNamed(s, params).Bound? <==>
      exists gs :: Text(gs) == s && BindsAll(s, 0, gs) && NamesOk(params)
                   && (set p | p in params :: p.0) == (set n | n in Sites(gs))
    ensures forall gs :: Text(gs) == s && BindsAll(s, 0, gs) && BindNamed(s, params).Bound? ==>
      BindNamed(s, params).sql == Positional(gs) && |BindNamed(s, params).params| == |Sites(gs)|
  {
    hide BindsAll, BindFrom, Text, Sites, Positional, NamesOk;
    if BindNamed(s, params).Bound? {
      var gs := TemplateOf(s, 0, Values(params).value);
      assert s[0..] == s;
      BindNamedIs(gs, params);
    }
    forall gs | Text(gs) == s && BindsAll(s, 0, gs)
      ensures BindNamed(s, params).Bound? <==>
        NamesOk(params) && (set p | p in params :: p.0) == (set n | n in Sites(gs))
      ensures BindNamed(s, params).Bound? ==>
        BindNamed(s, params).sql == Positional(gs) && |BindNamed(s, params).params| == |Sites(gs)|
    {
      BindNamedIs(gs, params);
    }
  }
}
