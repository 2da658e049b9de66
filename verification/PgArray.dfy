/**
  PostgreSQL array and composite text: the printers, the one scanner that reads
  both back, and the exact round trip (sections 8.15.6 and 8.16.6 of the
  PostgreSQL manual).
*/
module PgArray {
  import opened Wrappers
  import opened Slices

  type Element = Option<string>

  function Open(composite: bool): char { if composite then '(' else '{' }

  function Close(composite: bool): char { if composite then ')' else '}' }

  predicate Special(c: char) { c in "{},\"\\ \t\n\r" }

  predicate SpellsNull(s: string) { |s| == 4 && s[0] in "Nn" && s[1] in "Uu" && s[2] in "Ll" && s[3] in "Ll" }

  predicate NeedsQuoting(s: string) { s == "" || SpellsNull(s) || exists c <- s :: Special(c) }

  // ---------------------------------------------------------------- printers

  function Escape(s: string): string {
    if s == "" then ""
    else EscapeChar(s[0]) + Escape(s[1..])
  }

  function EscapeChar(c: char): string { if c == '"' || c == '\\' then ['\\', c] else [c] }

  function Quote(s: string): string { if NeedsQuoting(s) then ['"'] + Escape(s) + ['"'] else s }

  /** An array spells NULL out; a composite leaves the field empty. */
  function ElementText(e: Element, composite: bool): string {
    if e.Some? then Quote(e.value) else if composite then "" else "NULL"
  }

  function Body(es: seq<Element>, composite: bool): string {
    if es == [] then ""
    else ElementText(es[0], composite) + if |es| == 1 then "" else [','] + Body(es[1..], composite)
  }

  function Format(es: seq<Element>, composite: bool): string {
    [Open(composite)] + Body(es, composite) + [Close(composite)]
  }

  // ---------------------------------------------------------- splitElements

  datatype Scan = Scan(raw: string, quoted: bool, quotedAny: bool, depth: nat, out: seq<Element>)

  function Flush(s: Scan, composite: bool): Scan {
    s.(raw := "", quotedAny := false,
       out := s.out + [if !s.quotedAny && (s.raw == "NULL" || (s.raw == "" && composite)) then None else Some(s.raw)])
  }

  /** The loop, from position `i` on; None when it rejects. */
  function Run(t: string, i: nat, composite: bool, s: Scan): Option<seq<Element>>
    decreases |t| - i
  {
    if i + 1 >= |t| then (if s.quoted || s.depth != 0 then None else Some(Flush(s, composite).out)) else
    var c := t[i];
    if s.quoted then
      if c == '\\' && i + 2 < |t| then Run(t, i + 2, composite, s.(raw := s.raw + [t[i + 1]]))
      else if c == '"' then Run(t, i + 1, composite, s.(quoted := false))
      else Run(t, i + 1, composite, s.(raw := s.raw + [c]))
    else if c == '"' then Run(t, i + 1, composite, s.(quoted := true, quotedAny := true))
    else if c == Open(composite) then Run(t, i + 1, composite, s.(raw := s.raw + [c], depth := s.depth + 1))
    else if c == Close(composite) then
      if s.depth == 0 then None else Run(t, i + 1, composite, s.(raw := s.raw + [c], depth := s.depth - 1))
    else if c == ',' && s.depth == 0 then Run(t, i + 1, composite, Flush(s, composite))
    else Run(t, i + 1, composite, s.(raw := s.raw + [c]))
  }

  function Parse(t: string, composite: bool): Option<seq<Element>> {
    if |t| < 2 || t[0] != Open(composite) || t[|t| - 1] != Close(composite) then None
    else if |t| == 2 then Some([])
    else Run(t, 1, composite, Scan("", false, false, 0, []))
  }

  // --------------------------------------------------------- reading one text

  /** `xs` stands at `i`, before the closing bracket. */
  ghost predicate Inside(t: string, i: nat, xs: string) { At(t, i, xs) && i + |xs| < |t| }

  lemma {:induction false} InsideSplit(t: string, i: nat, a: string, b: string)
    requires Inside(t, i, a + b)
    ensures Inside(t, i, a) && Inside(t, i + |a|, b)
  {
    AtSplit(t, i, a, b);
  }

  lemma {:induction false} InsideFirst(t: string, i: nat, xs: string)
    requires Inside(t, i, xs) && xs != ""
    ensures i + 1 < |t| && t[i] == xs[0]
  {
    AtFirst(t, i, xs);
  }

  /** One turn inside quotes. */
  lemma {:induction false} QuotedStep(t: string, i: nat, composite: bool, st: Scan)
    requires i + 1 < |t| && st.quoted
    ensures t[i] == '\\' && i + 2 < |t| ==>
      Run(t, i, composite, st) == Run(t, i + 2, composite, st.(raw := st.raw + [t[i + 1]]))
    ensures t[i] == '"' ==> Run(t, i, composite, st) == Run(t, i + 1, composite, st.(quoted := false))
    ensures t[i] != '\\' && t[i] != '"' ==>
      Run(t, i, composite, st) == Run(t, i + 1, composite, st.(raw := st.raw + [t[i]]))
  {
  }

  /** One turn outside quotes on a character that is neither a comma nor a quote. */
  lemma {:induction false} PlainStep(t: string, i: nat, composite: bool, st: Scan)
    requires i + 1 < |t| && !st.quoted && t[i] != ',' && t[i] != '"'
    ensures var next := st.(raw := st.raw + [t[i]]);
      && (t[i] == Open(composite) ==>
        Run(t, i, composite, st) == Run(t, i + 1, composite, next.(depth := st.depth + 1)))
      && (t[i] == Close(composite) && st.depth > 0 ==>
        Run(t, i, composite, st) == Run(t, i + 1, composite, next.(depth := st.depth - 1)))
      && (t[i] == Close(composite) && st.depth == 0 ==> Run(t, i, composite, st) == None)
      && (t[i] != Open(composite) && t[i] != Close(composite) ==>
        Run(t, i, composite, st) == Run(t, i + 1, composite, next))
  {
  }

  lemma {:induction false} EscapedRun(t: string, i: nat, composite: bool, s: string, st: Scan)
    requires Inside(t, i, Escape(s) + ['"']) && st.quoted
    ensures Run(t, i, composite, st) == Run(t, i + |Escape(s)| + 1, composite, st.(raw := st.raw + s, quoted := false))
    decreases |s|
  {
    hide Run;
    if s == "" {
      assert Escape(s) + ['"'] == ['"'];
      InsideFirst(t, i, ['"']);
      QuotedStep(t, i, composite, st);
      assert st.raw + s == st.raw;
    } else {
      var rest := Escape(s[1..]) + ['"'];
      var next := st.(raw := st.raw + [s[0]]);
      assert st.raw + s == st.raw + [s[0]] + s[1..];
      if s[0] == '"' || s[0] == '\\' {
        assert Escape(s) + ['"'] == ['\\', s[0]] + rest;
        InsideSplit(t, i, ['\\', s[0]], rest);
        assert t[i + 0] == ['\\', s[0]][0] && t[i + 1] == ['\\', s[0]][1];
        QuotedStep(t, i, composite, st);
        EscapedRun(t, i + 2, composite, s[1..], next);
      } else {
        assert Escape(s) + ['"'] == [s[0]] + rest;
        InsideSplit(t, i, [s[0]], rest);
        InsideFirst(t, i, [s[0]]);
        QuotedStep(t, i, composite, st);
        EscapedRun(t, i + 1, composite, s[1..], next);
      }
    }
  }

  lemma {:induction false} QuotedRun(t: string, i: nat, composite: bool, s: string, st: Scan)
    requires Inside(t, i, ['"'] + Escape(s) + ['"']) && !st.quoted
    ensures Run(t, i, composite, st)
         == Run(t, i + |Escape(s)| + 2, composite, st.(raw := st.raw + s, quotedAny := true))
  {
    assert ['"'] + Escape(s) + ['"'] == ['"'] + (Escape(s) + ['"']);
    InsideSplit(t, i, ['"'], Escape(s) + ['"']);
    InsideFirst(t, i, ['"']);
    EscapedRun(t, i + 1, composite, s, st.(quoted := true, quotedAny := true));
  }

  /** Bracket depth after `s`, from depth `d`; None when it falls below zero. */
  function Level(s: string, composite: bool, d: nat): Option<nat> {
    if s == "" then Some(d)
    else if s[0] == Open(composite) then Level(s[1..], composite, d + 1)
    else if s[0] == Close(composite) then (if d == 0 then None else Level(s[1..], composite, d - 1))
    else Level(s[1..], composite, d)
  }

  predicate Plain(s: string) { forall c <- s :: c != ',' && c != '"' }

  lemma {:induction false} PlainRun(t: string, i: nat, composite: bool, s: string, st: Scan)
    requires Inside(t, i, s) && !st.quoted && Plain(s)
    ensures var level := Level(s, composite, st.depth);
      Run(t, i, composite, st) ==
        if level.None? then None else Run(t, i + |s|, composite, st.(raw := st.raw + s, depth := level.value))
    decreases |s|
  {
    hide Run;
    if s == "" {
      assert st.raw + s == st.raw;
    } else {
      assert s == [s[0]] + s[1..];
      InsideSplit(t, i, [s[0]], s[1..]);
      InsideFirst(t, i, [s[0]]);
      assert s[0] in s && forall c <- s[1..] :: c in s;
      assert st.raw + [s[0]] + s[1..] == st.raw + s;
      PlainStep(t, i, composite, st);
      var next := st.(raw := st.raw + [s[0]]);
      if s[0] == Open(composite) {
        PlainRun(t, i + 1, composite, s[1..], next.(depth := st.depth + 1));
      } else if s[0] == Close(composite) {
        if st.depth > 0 { PlainRun(t, i + 1, composite, s[1..], next.(depth := st.depth - 1)); }
      } else {
        PlainRun(t, i + 1, composite, s[1..], next);
      }
    }
  }

  // ------------------------------------------------------------ one element

  /** An element the scanner reads back: absent, quoted by the printer, or with balanced brackets. */
  predicate Good(e: Element, composite: bool) {
    e.Some? ==> NeedsQuoting(e.value) || Level(e.value, composite, 0) == Some(0)
  }

  /** What an element's text does to the scanner, from any unquoted state. */
  function Effect(e: Element, composite: bool, st: Scan): Option<Scan> {
    if e.None? then Some(if composite then st else st.(raw := st.raw + "NULL"))
    else if NeedsQuoting(e.value) then Some(st.(raw := st.raw + e.value, quotedAny := true))
    else
      var level := Level(e.value, composite, st.depth);
      if level.None? then None else Some(st.(raw := st.raw + e.value, depth := level.value))
  }

  lemma {:induction false} ElementRun(t: string, i: nat, composite: bool, e: Element, st: Scan)
    requires Inside(t, i, ElementText(e, composite)) && !st.quoted
    ensures var next := Effect(e, composite, st);
      Run(t, i, composite, st) ==
        if next.None? then None else Run(t, i + |ElementText(e, composite)|, composite, next.value)
  {
    hide Run;
    if e.None? {
      if !composite {
        PlainRun(t, i, composite, "NULL", st);
        NullLevel(st.depth);
      }
    } else if NeedsQuoting(e.value) {
      QuotedRun(t, i, composite, e.value, st);
    } else {
      assert Plain(e.value) by { forall c | c in e.value ensures c != ',' && c != '"' { assert !Special(c); } }
      PlainRun(t, i, composite, e.value, st);
    }
  }

  lemma {:induction false} NullLevel(d: nat)
    ensures Level("NULL", false, d) == Some(d)
  {
    NoBraces("NULL", d);
  }

  ghost predicate Clean(st: Scan) { st.raw == "" && !st.quoted && !st.quotedAny && st.depth == 0 }

  lemma {:induction false} GoodEffect(e: Element, composite: bool, st: Scan)
    requires Clean(st) && Good(e, composite)
    ensures var next := Effect(e, composite, st);
      next.Some? && !next.value.quoted && next.value.depth == 0
      && Flush(next.value, composite) == st.(out := st.out + [e])
  {
    hide Level, Special;
    if e.Some? {
      assert "" + e.value == e.value;
      if !NeedsQuoting(e.value) { assert e.value != "NULL" by { assert SpellsNull("NULL"); } }
    } else if !composite {
      assert "" + "NULL" == "NULL";
    }
  }

  lemma {:induction false} BadEffect(e: Element, composite: bool, st: Scan)
    requires Clean(st) && !Good(e, composite)
    ensures var next := Effect(e, composite, st); next.Some? ==>
      next.value.depth > 0 && !next.value.quoted && next.value.out == st.out
  {
    hide Level;
  }

  // ---------------------------------------------------------------- all of it

  /** After an element: a comma, or the end. */
  lemma {:induction false} BodySplit(t: string, i: nat, es: seq<Element>, composite: bool)
    requires es != [] && Inside(t, i, Body(es, composite)) && i + |Body(es, composite)| == |t| - 1
    ensures var j := i + |ElementText(es[0], composite)|;
      && Inside(t, i, ElementText(es[0], composite))
      && (|es| == 1 ==> j + 1 == |t|)
      && (|es| > 1 ==> j + 1 < |t| && t[j] == ',' && Inside(t, j + 1, Body(es[1..], composite))
                       && j + 1 + |Body(es[1..], composite)| == |t| - 1)
  {
    hide ElementText, At;
    var first := ElementText(es[0], composite);
    if |es| == 1 {
      assert Body(es, composite) == first;
    } else {
      var rest := [','] + Body(es[1..], composite);
      assert Body(es, composite) == first + rest;
      InsideSplit(t, i, first, rest);
      InsideSplit(t, i + |first|, [','], Body(es[1..], composite));
      InsideFirst(t, i + |first|, [',']);
    }
  }

  lemma {:induction false} AtEnd(t: string, j: nat, composite: bool, st: Scan)
    requires j + 1 == |t|
    ensures Run(t, j, composite, st) == if st.quoted || st.depth != 0 then None else Some(Flush(st, composite).out)
  {
  }

  lemma {:induction false} AtComma(t: string, j: nat, composite: bool, st: Scan)
    requires j + 1 < |t| && t[j] == ',' && !st.quoted
    ensures Run(t, j, composite, st) ==
      Run(t, j + 1, composite, if st.depth == 0 then Flush(st, composite) else st.(raw := st.raw + [',']))
  {
  }

  /** No text of `n` elements yields more than `n` of them, whatever the state it starts in. */
  lemma {:induction false} NoExtraElements(t: string, i: nat, es: seq<Element>, composite: bool, st: Scan)
    requires es != [] && Inside(t, i, Body(es, composite)) && i + |Body(es, composite)| == |t| - 1 && !st.quoted
    ensures var r := Run(t, i, composite, st); r.Some? ==> |r.value| <= |st.out| + |es|
    decreases |es|
  {
    hide Run, Level, ElementText, Body, NeedsQuoting, Inside;
    BodySplit(t, i, es, composite);
    ElementRun(t, i, composite, es[0], st);
    var next := Effect(es[0], composite, st);
    if next.Some? {
      var j := i + |ElementText(es[0], composite)|;
      if |es| == 1 {
        AtEnd(t, j, composite, next.value);
      } else {
        AtComma(t, j, composite, next.value);
        var after := if next.value.depth == 0 then Flush(next.value, composite)
          else next.value.(raw := next.value.raw + [',']);
        NoExtraElements(t, j + 1, es[1..], composite, after);
      }
    }
  }

  lemma {:induction false} BodyRun(t: string, i: nat, es: seq<Element>, composite: bool, st: Scan)
    requires es != [] && Inside(t, i, Body(es, composite)) && i + |Body(es, composite)| == |t| - 1 && Clean(st)
    ensures Run(t, i, composite, st) == Some(st.out + es) <==> forall e <- es :: Good(e, composite)
    decreases |es|
  {
    hide Run, Level, ElementText, Body, NeedsQuoting, Inside, Good;
    BodySplit(t, i, es, composite);
    ElementRun(t, i, composite, es[0], st);
    var next := Effect(es[0], composite, st);
    var j := i + |ElementText(es[0], composite)|;
    assert forall e :: e in es <==> e == es[0] || e in es[1..];
    if Good(es[0], composite) {
      GoodEffect(es[0], composite, st);
      var after := Flush(next.value, composite);
      if |es| == 1 {
        AtEnd(t, j, composite, next.value);
        assert es == [es[0]];
      } else {
        AtComma(t, j, composite, next.value);
        BodyRun(t, j + 1, es[1..], composite, after);
        assert st.out + es == st.out + [es[0]] + es[1..];
      }
    } else {
      BadEffect(es[0], composite, st);
      if next.Some? {
        if |es| == 1 {
          AtEnd(t, j, composite, next.value);
        } else {
          AtComma(t, j, composite, next.value);
          NoExtraElements(t, j + 1, es[1..], composite, next.value.(raw := next.value.raw + [',']));
        }
      }
    }
  }

  lemma {:induction false} BodyIsEmpty(es: seq<Element>, composite: bool)
    ensures Body(es, composite) == "" <==> es == [] || (composite && es == [None])
  {
    if es != [] { assert |es| == 1 ==> es == [es[0]]; }
  }

  /** The round trip holds exactly when the text is not the bare brackets of a single NULL field
      and every element is absent, quoted or bracket-balanced. */
  lemma {:induction false} RoundTripExactly(es: seq<Element>, composite: bool)
    ensures Parse(Format(es, composite), composite) == Some(es) <==>
      !(composite && es == [None]) && forall e <- es :: Good(e, composite)
  {
    hide Run, Good, Body;
    var t, b := Format(es, composite), Body(es, composite);
    BodyIsEmpty(es, composite);
    assert t[0] == Open(composite) && t[|t| - 1] == Close(composite) && |t| == |b| + 2;
    if b != "" {
      assert Inside(t, 1, b);
      BodyRun(t, 1, es, composite, Scan("", false, false, 0, []));
      assert [] + es == es;
    }
  }

  lemma {:induction false} NoBraces(s: string, d: nat)
    requires forall c <- s :: c != '{' && c != '}'
    ensures Level(s, false, d) == Some(d)
  {
    if s != "" { assert s[0] in s && forall c <- s[1..] :: c in s; NoBraces(s[1..], d); }
  }

  /** Arrays: the identity on every list of optional strings. */
  lemma {:induction false} ArrayRoundTrip(es: seq<Element>)
    ensures Parse(Format(es, false), false) == Some(es)
  {
    hide Parse, Format;
    forall e | e in es ensures Good(e, false) {
      if e.Some? && !NeedsQuoting(e.value) {
        forall c | c in e.value ensures c != '{' && c != '}' { assert !Special(c); }
        NoBraces(e.value, 0);
      }
    }
    RoundTripExactly(es, false);
  }

  lemma {:induction false} NoParentheses(s: string, d: nat)
    requires forall c <- s :: c != '(' && c != ')'
    ensures Level(s, true, d) == Some(d)
  {
    if s != "" { assert s[0] in s && forall c <- s[1..] :: c in s; NoParentheses(s[1..], d); }
  }

  /** Composites: the identity on every list but the single NULL, when no element holds a parenthesis. */
  lemma {:induction false} CompositeRoundTrip(es: seq<Element>)
    requires es != [None] && forall e <- es :: e.Some? ==> '(' !in e.value && ')' !in e.value
    ensures Parse(Format(es, true), true) == Some(es)
  {
    hide Parse, Format;
    forall e | e in es ensures Good(e, true) { if e.Some? { NoParentheses(e.value, 0); } }
    RoundTripExactly(es, true);
  }

  /** An unquoted parenthesis is lost: the field `(` reads back as nothing. */
  lemma {:induction false} LoneParenthesisFails()
    ensures Parse(Format([Some("(")], true), true) != Some([Some("(")])
  {
    hide Parse, Format;
    assert Level("(", true, 0) == Some(1) by { assert "("[1..] == ""; }
    assert !NeedsQuoting("(");
    assert Some("(") in [Some("(")];
    RoundTripExactly([Some("(")], true);
  }

  // --------------------------------------------------------------- the loops

  method NeedsQuotes(raw: string) returns (r: bool)
    ensures r == NeedsQuoting(raw)
  {
    if raw == "" || SpellsNull(raw) { return true; }
    for i := 0 to |raw|
      invariant forall c <- raw[..i] :: !Special(c)
    {
      if Special(raw[i]) { return true; }
      assert raw[..i + 1] == raw[..i] + [raw[i]];
    }
    assert raw[..|raw|] == raw;
    r := false;
  }

  lemma {:induction false} EscapeNothing()
    ensures Escape("") == ""
  {
  }

  lemma {:induction false} EscapeSnoc(s: string, c: char)
    ensures Escape(s + [c]) == Escape(s) + EscapeChar(c)
  {
    hide EscapeChar;
    if s == "" {
      assert s + [c] == [c] && [c][1..] == "";
    } else {
      EscapeSnoc(s[1..], c);
      assert (s + [c])[1..] == s[1..] + [c];
    }
  }

  lemma {:induction false} Regroup(a: string, b: string, c: string)
    ensures a + ([','] + (b + [','] + c)) == (a + ([','] + b)) + [','] + c
  {
  }

  lemma {:induction false} BodySnoc(es: seq<Element>, e: Element, composite: bool)
    ensures Body(es + [e], composite) == Body(es, composite) + (if es == [] then "" else [','])
      + ElementText(e, composite)
  {
    hide ElementText;
    var all, c := es + [e], ElementText(e, composite);
    if es == [] {
      assert all == [e];
    } else {
      var a, b := ElementText(es[0], composite), Body(es[1..], composite);
      BodySnoc(es[1..], e, composite);
      assert all[1..] == es[1..] + [e] && all[0] == es[0] && |all| > 1;
      if |es| == 1 {
        assert es[1..] == [];
        assert Body(all, composite) == a + ([','] + ("" + "" + c));
      } else {
        Regroup(a, b, c);
      }
    }
  }

  /** pgQuoteArrayElement. */
  method QuoteElement(raw: string) returns (s: string)
    ensures s == Quote(raw)
  {
    hide NeedsQuoting, Escape;
    var quote := NeedsQuotes(raw);
    if !quote { return raw; }
    EscapeNothing();
    s := ['"'];
    for i := 0 to |raw|
      invariant s == ['"'] + Escape(raw[..i])
    {
      EscapeSnoc(raw[..i], raw[i]);
      assert raw[..i + 1] == raw[..i] + [raw[i]];
      if raw[i] == '"' || raw[i] == '\\' { s := s + ['\\']; }
      s := s + [raw[i]];
    }
    assert raw[..|raw|] == raw;
    s := s + ['"'];
  }

  /** pgFormatArray and pgFormatComposite. */
  method FormatElements(es: seq<Element>, composite: bool) returns (s: string)
    ensures s == Format(es, composite)
  {
    hide Quote, Body;
    s := [Open(composite)];
    BodyIsEmpty([], composite);
    for i := 0 to |es|
      invariant s == [Open(composite)] + Body(es[..i], composite)
    {
      BodySnoc(es[..i], es[i], composite);
      assert es[..i + 1] == es[..i] + [es[i]];
      if i > 0 { s := s + [',']; }
      if es[i].Some? {
        var text := QuoteElement(es[i].value);
        s := s + text;
      } else if !composite {
        s := s + "NULL";
      }
    }
    assert es[..|es|] == es;
    s := s + [Close(composite)];
  }

  /** splitElements. */
  method SplitElements(t: string, composite: bool) returns (r: Option<seq<Element>>)
    ensures r == Parse(t, composite)
  {
    if |t| < 2 || t[0] != Open(composite) || t[|t| - 1] != Close(composite) { return None; }
    if |t| == 2 { return Some([]); }
    var raw, quoted, quotedAny, depth: nat, out := "", false, false, 0, [];
    var i := 1;
    while i + 1 < |t|
      invariant 1 <= i < |t|
      invariant Run(t, i, composite, Scan(raw, quoted, quotedAny, depth, out)) == Parse(t, composite)
      decreases |t| - i
    {
      var c := t[i];
      if quoted {
        if c == '\\' && i + 1 < |t| - 1 { raw := raw + [t[i + 1]]; i := i + 2; continue; }
        if c == '"' { quoted := false; } else { raw := raw + [c]; }
        i := i + 1;
        continue;
      }
      if c == '"' {
        quoted, quotedAny := true, true;
      } else if c == Open(composite) {
        depth, raw := depth + 1, raw + [c];
      } else if c == Close(composite) {
        if depth == 0 { return None; }
        depth, raw := depth - 1, raw + [c];
      } else if c == ',' && depth == 0 {
        out := out + [if !quotedAny && (raw == "NULL" || (raw == "" && composite)) then None else Some(raw)];
        raw, quotedAny := "", false;
      } else {
        raw := raw + [c];
      }
      i := i + 1;
    }
    if quoted || depth != 0 { return None; }
    r := Some(out + [if !quotedAny && (raw == "NULL" || (raw == "" && composite)) then None else Some(raw)]);
  }
}
