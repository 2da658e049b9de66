/**
  Protected SQL text as it is written: literals with doubled or escaped quotes,
  bracketed names, nested and line comments, alternative and dollar quotes. Each
  piece is printed here without looking at the scanners, and the scanners of
  `SqlText` are shown to stop exactly where the printed piece ends.
*/
module SqlPieces {
  import opened Wrappers
  import opened SqlText
  import S = Slices

  // --------------------------------------------------------- literals and names

  /** One step of quoted text: a character, the quote written twice, or a character behind a backslash. */
  datatype Unit = Plain(c: char) | Doubled | Escaped(c: char)

  predicate UnitOk(u: Unit, q: char, escapes: bool) {
    match u
    case Plain(c) => c != q && (escapes ==> c != '\\')
    case Doubled => true
    case Escaped(_) => escapes
  }

  predicate UnitsOk(us: seq<Unit>, q: char, escapes: bool) { forall u <- us :: UnitOk(u, q, escapes) }

  function UnitText(u: Unit, q: char): string {
    match u
    case Plain(c) => [c]
    case Doubled => [q, q]
    case Escaped(c) => ['\\', c]
  }

  function Body(us: seq<Unit>, q: char): string {
    if us == [] then "" else UnitText(us[0], q) + Body(us[1..], q)
  }

  lemma {:induction false} UnitPasses(s: string, i: nat, u: Unit, q: char, escapes: bool)
    requires UnitOk(u, q, escapes) && q != '\\' && S.At(s, i, UnitText(u, q))
    ensures QuoteEnd(s, i, q, escapes) == QuoteEnd(s, i + |UnitText(u, q)|, q, escapes)
  {
    S.AtIndex(s, i, UnitText(u, q), 0);
    if !u.Plain? { S.AtIndex(s, i, UnitText(u, q), 1); }
  }

  lemma {:induction false} BodyPasses(s: string, i: nat, us: seq<Unit>, q: char, escapes: bool)
    requires UnitsOk(us, q, escapes) && q != '\\' && S.At(s, i, Body(us, q))
    ensures QuoteEnd(s, i, q, escapes) == QuoteEnd(s, i + |Body(us, q)|, q, escapes)
    decreases |us|
  {
    hide QuoteEnd, UnitText, UnitOk, S.At;
    if us != [] {
      var text := UnitText(us[0], q);
      assert UnitOk(us[0], q, escapes);
      S.AtSplit(s, i, text, Body(us[1..], q));
      UnitPasses(s, i, us[0], q, escapes);
      BodyPasses(s, i + |text|, us[1..], q, escapes);
    }
  }

  /** Quoted text ends at the closing quote that the printer wrote, whatever the text contains. */
  lemma {:induction false} QuotedEnds(s: string, i: nat, us: seq<Unit>, q: char, escapes: bool)
    requires UnitsOk(us, q, escapes) && q != '\\' && S.At(s, i, Body(us, q) + [q])
    requires !At(s, i + |Body(us, q)| + 1, q)
    ensures QuoteEnd(s, i, q, escapes) == Some(i + |Body(us, q)| + 1)
  {
    S.AtSplit(s, i, Body(us, q), [q]);
    BodyPasses(s, i, us, q, escapes);
    S.AtFirst(s, i + |Body(us, q)|, [q]);
  }

  /** Without a closing quote there is no end. */
  lemma {:induction false} UnclosedQuote(s: string, i: nat, us: seq<Unit>, q: char, escapes: bool)
    requires UnitsOk(us, q, escapes) && q != '\\' && S.At(s, i, Body(us, q)) && i + |Body(us, q)| == |s|
    ensures QuoteEnd(s, i, q, escapes) == None
  {
    BodyPasses(s, i, us, q, escapes);
  }

  lemma {:induction false} BodyCons(u: Unit, us: seq<Unit>, q: char)
    ensures Body([u] + us, q) + [q] == UnitText(u, q) + (Body(us, q) + [q])
  {
    assert ([u] + us)[1..] == us;
  }

  /** The unit with which quoted text at i begins, unless its closing quote stands there. */
  lemma {:induction false} FirstUnit(s: string, i: nat, q: char, escapes: bool) returns (u: Unit, j: nat)
    requires QuoteEnd(s, i, q, escapes).Some? && i < |s| && !(s[i] == q && !At(s, i + 1, q)) && q != '\\'
    ensures i < j <= |s| && s[i..j] == UnitText(u, q) && UnitOk(u, q, escapes)
    ensures QuoteEnd(s, i, q, escapes) == QuoteEnd(s, j, q, escapes)
  {
    if s[i] == q { u, j := Doubled, i + 2; }
    else if s[i] == '\\' && escapes && i + 1 < |s| { u, j := Escaped(s[i + 1]), i + 2; }
    else { u, j := Plain(s[i]), i + 1; }
  }

  /** Conversely, what the scanner takes for quoted text is a printed body, up to its closing quote. */
  lemma {:induction false} QuotedIs(s: string, i: nat, q: char, escapes: bool) returns (us: seq<Unit>)
    requires QuoteEnd(s, i, q, escapes).Some? && q != '\\'
    ensures var k := QuoteEnd(s, i, q, escapes).value;
      i < |s| && UnitsOk(us, q, escapes) && s[i..k] == Body(us, q) + [q] && !At(s, k, q)
    decreases |s| - i
  {
    var k := QuoteEnd(s, i, q, escapes).value;
    assert i < |s|;
    if s[i] == q && !At(s, i + 1, q) {
      us := [];
      assert s[i..k] == [q];
    } else {
      hide Body, UnitText, QuoteEnd;
      var u, j := FirstUnit(s, i, q, escapes);
      var rest := QuotedIs(s, j, q, escapes);
      us := [u] + rest;
      assert s[i..k] == s[i..j] + s[j..k];
      BodyCons(u, rest, q);
    }
  }

  // -------------------------------------------------------------------- comments

  /** The inside of a comment: text, and comments within it. */
  datatype Part = Words(text: string) | Nested(parts: seq<Part>)

  function PartText(p: Part): string
    decreases p, 0
  {
    match p
    case Words(text) => text
    case Nested(parts) => "/*" + (Inside(parts) + "*/")
  }

  function Inside(ps: seq<Part>): string
    decreases ps, 1
  {
    if ps == [] then "" else PartText(ps[0]) + Inside(ps[1..])
  }

  /** In the text that stands at i of s nothing looks like a comment mark. */
  predicate Quiet(s: string, i: nat, text: string) {
    forall k :: i <= k < i + |text| ==> !At2(s, k, '/', '*') && !At2(s, k, '*', '/')
  }

  predicate QuietPart(s: string, i: nat, p: Part)
    decreases p, 0
  {
    match p
    case Words(text) => Quiet(s, i, text)
    case Nested(parts) => QuietParts(s, i + 2, parts)
  }

  predicate QuietParts(s: string, i: nat, ps: seq<Part>)
    decreases ps, 1
  {
    ps != [] ==> QuietPart(s, i, ps[0]) && QuietParts(s, i + |PartText(ps[0])|, ps[1..])
  }

  lemma {:induction false} TextPasses(s: string, i: nat, text: string, depth: nat)
    requires depth > 0 && S.At(s, i, text) && Quiet(s, i, text)
    ensures i + |text| <= |s| && CommentEnd(s, i, depth) == CommentEnd(s, i + |text|, depth)
    decreases |text|
  {
    if text != "" {
      assert text == [text[0]] + text[1..];
      S.AtSplit(s, i, [text[0]], text[1..]);
      TextPasses(s, i + 1, text[1..], depth);
    }
  }

  lemma {:induction false} PartPasses(s: string, i: nat, p: Part, depth: nat)
    requires depth > 0 && S.At(s, i, PartText(p)) && QuietPart(s, i, p)
    ensures i + |PartText(p)| <= |s| && CommentEnd(s, i, depth) == CommentEnd(s, i + |PartText(p)|, depth)
    decreases p, 0
  {
    match p
    case Words(text) => TextPasses(s, i, text, depth);
    case Nested(parts) =>
      var inside := Inside(parts);
      S.AtSplit(s, i, "/*", inside + "*/");
      S.AtSplit(s, i + 2, inside, "*/");
      S.AtIndex(s, i, "/*", 0); S.AtIndex(s, i, "/*", 1);
      InsidePasses(s, i + 2, parts, depth + 1);
      var j := i + 2 + |inside|;
      S.AtIndex(s, j, "*/", 0); S.AtIndex(s, j, "*/", 1);
  }

  lemma {:induction false} InsidePasses(s: string, i: nat, ps: seq<Part>, depth: nat)
    requires depth > 0 && S.At(s, i, Inside(ps)) && QuietParts(s, i, ps)
    ensures i + |Inside(ps)| <= |s| && CommentEnd(s, i, depth) == CommentEnd(s, i + |Inside(ps)|, depth)
    decreases ps, 1
  {
    if ps != [] {
      S.AtSplit(s, i, PartText(ps[0]), Inside(ps[1..]));
      PartPasses(s, i, ps[0], depth);
      InsidePasses(s, i + |PartText(ps[0])|, ps[1..], depth);
    }
  }

  /** A comment ends where its own closing mark was written, however many comments it contains. */
  lemma {:induction false} CommentEnds(s: string, i: nat, ps: seq<Part>)
    requires S.At(s, i, Inside(ps) + "*/") && QuietParts(s, i, ps)
    ensures i <= |s| && CommentEnd(s, i, 1) == Some(i + |Inside(ps)| + 2)
  {
    S.AtSplit(s, i, Inside(ps), "*/");
    InsidePasses(s, i, ps, 1);
    var j := i + |Inside(ps)|;
    S.AtIndex(s, j, "*/", 0); S.AtIndex(s, j, "*/", 1);
  }

  lemma {:induction false} UnclosedComment(s: string, i: nat, ps: seq<Part>)
    requires S.At(s, i, Inside(ps)) && QuietParts(s, i, ps) && i + |Inside(ps)| == |s|
    ensures CommentEnd(s, i, 1) == None
  {
    InsidePasses(s, i, ps, 1);
  }

  /** A line comment ends at its newline or with the text. */
  lemma {:induction false} LineEnds(s: string, i: nat, text: string)
    requires S.At(s, i, text) && '\n' !in text && (i + |text| == |s| || s[i + |text|] == '\n')
    ensures i <= |s| && LineEnd(s, i) == i + |text|
    decreases |text|
  {
    if text != "" {
      assert text == [text[0]] + text[1..] && text[0] in text;
      S.AtSplit(s, i, [text[0]], text[1..]);
      S.AtFirst(s, i, text);
      LineEnds(s, i + 1, text[1..]);
    }
  }

  // ------------------------------------------------------------------- delimiters

  /** Text closed by `close`, which does not occur before. */
  lemma {:induction false} DelimitedEnds(s: string, i: nat, text: string, close: string)
    requires S.At(s, i, text + close) && forall k :: i <= k < i + |text| ==> !Occurs(s, close, k)
    ensures Find(s, close, i) == Some(i + |text|)
  {
    S.AtSplit(s, i, text, close);
    S.AtIs(s, i + |text|, close);
    assert Occurs(s, close, i + |text|);
  }

  /** How Oracle's alternative quotes pair up. */
  predicate Pairs(open: char, close: char) {
    || (open, close) == ('[', ']') || (open, close) == ('(', ')') || (open, close) == ('{', '}')
    || (open, close) == ('<', '>') || (open !in "[({<" && close == open)
  }

  lemma {:induction false} PairsClose(open: char, close: char)
    requires Pairs(open, close)
    ensures Closer(open) == close
  {
    var s := "[({<";
    assert s[0] in s && s[1] in s && s[2] in s && s[3] in s;
  }

  lemma {:induction false} WordEnds(s: string, i: nat, word: string)
    requires S.At(s, i, word) && (forall c <- word :: Next(c)) && (i + |word| < |s| ==> !Next(s[i + |word|]))
    ensures i <= |s| && WordEnd(s, i) == i + |word|
    decreases |word|
  {
    if word != "" {
      assert word == [word[0]] + word[1..] && word[0] in word;
      S.AtSplit(s, i, [word[0]], word[1..]);
      S.AtFirst(s, i, word);
      WordEnds(s, i + 1, word[1..]);
    }
  }
}
