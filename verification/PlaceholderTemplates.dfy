/** `buildSql` on every statement written with placeholders: exactly the placeholders outside protected text count. */
module PlaceholderTemplates {
  import opened Wrappers
  import opened SqlText
  import opened SqlPieces
  import opened NamedParams
  import opened SqlTemplates
  import S = Slices

  /** No dollar quote starts at i: the word behind it is not closed by a dollar, or begins with a digit. */
  predicate NoTag(s: string, i: nat)
    requires i < |s|
  {
    forall e :: i < e < |s| && s[e] == '$' && (forall k :: i < k < e ==> Next(s[k])) ==> e > i + 1 && Digit(s[i + 1])
  }

  /** An ordinary character for the placeholder scanner. */
  predicate Literal(s: string, i: nat)
    requires i < |s|
  {
    var c := s[i];
    && c !in "'\"`" && c != '?'
    && (c == '[' ==> i > 0 && (Next(s[i - 1]) || s[i - 1] == ')' || s[i - 1] == ']' || s[i - 1] == '?'))
    && !At2(s, i, '-', '-') && !At2(s, i, '/', '*') && (c in "qQ" && i + 2 < |s| ==> s[i + 1] != '\'')
    && (c == '$' ==> NoTag(s, i))
  }

  /** A segment of a statement with placeholders, well formed where it stands. */
  predicate Fits(s: string, i: nat, g: Segment) {
    match g
    case Char(_) => i < |s| && Literal(s, i)
    case Mark => true
    case Cast => false
    case Named(_) => false
    case Bracketed(_) =>
      && Protects(s, i, g)
      && (0 < i <= |s| ==> !Next(s[i - 1]) && s[i - 1] != ')' && s[i - 1] != ']' && s[i - 1] != '?')
    case _ => Protects(s, i, g)
  }

  ghost predicate FitAll(s: string, i: nat, gs: seq<Segment>)
    decreases |gs|
  {
    gs != [] ==> Fits(s, i, gs[0]) && FitAll(s, i + |Written(gs[0])|, gs[1..])
  }

  function MarksIn(gs: seq<Segment>): nat {
    if gs == [] then 0 else (if gs[0].Mark? then 1 else 0) + MarksIn(gs[1..])
  }

  /** The statement with the visitor's text for its placeholders, counted from `found`. */
  function Filled(gs: seq<Segment>, found: nat, visitor: nat -> string): string {
    if gs == [] then ""
    else if gs[0].Mark? then visitor(found) + Filled(gs[1..], found + 1, visitor)
    else Written(gs[0]) + Filled(gs[1..], found, visitor)
  }

  lemma {:induction false} NoTagOpens(s: string, i: nat)
    requires i < |s| && NoTag(s, i)
    ensures !OpensTag(s, i)
  {
    hide WordEnd;
    var e := WordEnd(s, i + 1);
    assert forall k :: i < k < e ==> Next(s[k]);
  }

  lemma {:induction false} LiteralStep(s: string, i: nat)
    requires i < |s| && Literal(s, i)
    ensures ReplaceStep(s, i) == i + 1
  {
    hide QuoteEnd, CommentEnd, LineEnd, Find, WordEnd, OpensTag, NoTag;
    QuoteChars(s[i]);
    if s[i] == '$' { NoTagOpens(s, i); }
  }

  lemma {:induction false} ProtectedSteps(s: string, i: nat, g: Segment)
    requires Standing(s, i, g) && Fits(s, i, g) && IsProtected(g) && !g.Line?
    ensures i < |s| && s[i] != '?' && ReplaceStep(s, i) == i + |Written(g)|
  {
    hide Standing, Protects, Written, ReplaceStep, QuoteEnd, CommentEnd, LineEnd, Find, WordEnd, DollarTag, Closer;
    match g
    case Quoted(q, units) =>
      QuotedPiece(s, i, q, units);
      StepOverQuote(s, i, q, i + |Written(g)|);
    case Bracketed(units) =>
      BracketedPiece(s, i, units);
      StepOverBracket(s, i, i + |Written(g)|);
    case Block(parts) =>
      BlockPiece(s, i, parts);
      StepOverComment(s, i);
    case Alternative(letter, open, text, close) =>
      AlternativePiece(s, i, letter, open, text, close);
      StepOverAlternative(s, i);
    case Dollar(tag, text) =>
      DollarPiece(s, i, tag, text);
      StepOverDollar(s, i, i + 1 + |tag|);
  }

  /** The scan of s from i gives `text` and then goes on from k. */
  ghost predicate Gives(s: string, i: nat, k: nat, text: string) {
    && i <= |s| && k <= |s| && CountFrom(s, i) == CountFrom(s, k)
    && forall found: nat, visitor: nat -> string ::
         ReplaceFrom(s, i, found, visitor) == text + ReplaceFrom(s, k, found, visitor)
  }

  lemma {:induction false} StepGives(s: string, i: nat)
    requires i < |s| && s[i] != '?'
    ensures Gives(s, i, ReplaceStep(s, i), s[i..ReplaceStep(s, i)])
  {
    hide ReplaceStep;
  }

  /** The scan goes over a line comment and its newline at once; the newline comes out all the same. */
  lemma {:induction false} LineGives(s: string, i: nat, text: string)
    requires Standing(s, i, Line(text)) && Protects(s, i, Line(text))
    ensures Gives(s, i, i + |Written(Line(text))|, Written(Line(text)))
  {
    hide Gives, ReplaceStep, LineEnd;
    var k := i + |Written(Line(text))|;
    LinePiece(s, i, text);
    StepOverComment(s, i);
    StepGives(s, i);
    S.AtIs(s, i, Written(Line(text)));
    if k < |s| {
      QuoteChars(s[k]);
      assert Literal(s, k);
      LiteralStep(s, k);
      StepGives(s, k);
      GivesLess(s, i, k);
    }
  }

  lemma {:induction false} GivesLess(s: string, i: nat, k: nat)
    requires i <= k < |s| && Gives(s, i, k + 1, s[i..k + 1]) && Gives(s, k, k + 1, s[k..k + 1])
    ensures Gives(s, i, k, s[i..k])
  {
    hide ReplaceFrom, CountFrom;
    assert s[i..k + 1] == s[i..k] + s[k..k + 1];
    forall found: nat, visitor: nat -> string
      ensures ReplaceFrom(s, i, found, visitor) == s[i..k] + ReplaceFrom(s, k, found, visitor)
    {
      var rest := ReplaceFrom(s, k + 1, found, visitor);
      assert (s[i..k] + s[k..k + 1]) + rest == s[i..k] + (s[k..k + 1] + rest);
    }
  }

  lemma {:induction false} SegmentGives(s: string, i: nat, g: Segment)
    requires Standing(s, i, g) && Fits(s, i, g) && !g.Mark?
    ensures Gives(s, i, i + |Written(g)|, Written(g))
  {
    hide Gives, ReplaceStep, Protects, Literal, S.At;
    S.AtIs(s, i, Written(g));
    if g.Line? {
      LineGives(s, i, g.text);
    } else if g.Char? {
      LiteralStep(s, i);
      assert s[i] != '?' by { NotAMark(s, i); }
      StepGives(s, i);
    } else {
      ProtectedSteps(s, i, g);
      StepGives(s, i);
    }
  }

  lemma {:induction false} NotAMark(s: string, i: nat)
    requires i < |s| && Literal(s, i)
    ensures s[i] != '?'
  {
  }

  lemma {:induction false} MarkGives(s: string, i: nat, found: nat, visitor: nat -> string)
    requires Standing(s, i, Mark)
    ensures i < |s| && CountFrom(s, i) == 1 + CountFrom(s, i + 1)
    ensures ReplaceFrom(s, i, found, visitor) == visitor(found) + ReplaceFrom(s, i + 1, found + 1, visitor)
  {
    S.AtFirst(s, i, "?");
  }

  /** The scan finds exactly the placeholders between the protected pieces, in order, and copies the rest. */
  lemma {:induction false} TemplateFills(
    s: string, i: nat, gs: seq<Segment>, found: nat, visitor: nat -> string)
    requires S.At(s, i, Text(gs)) && i + |Text(gs)| == |s| && FitAll(s, i, gs)
    ensures CountFrom(s, i) == MarksIn(gs) && ReplaceFrom(s, i, found, visitor) == Filled(gs, found, visitor)
    decreases |gs|
  {
    hide ReplaceStep, Fits, Written, S.At, Gives, ReplaceFrom, CountFrom;
    if gs == [] {
      AtTheEnd(s, found, visitor);
    } else {
      var g := gs[0];
      var k := i + |Written(g)|;
      S.AtSplit(s, i, Written(g), Text(gs[1..]));
      assert Standing(s, i, g);
      if g.Mark? {
        MarkGives(s, i, found, visitor);
        MarkLength();
        TemplateFills(s, k, gs[1..], found + 1, visitor);
      } else {
        SegmentGives(s, i, g);
        UseGives(s, i, k, Written(g), found, visitor);
        TemplateFills(s, k, gs[1..], found, visitor);
      }
    }
  }

  lemma {:induction false} MarkLength()
    ensures |Written(Mark)| == 1
  {
  }

  lemma {:induction false} AtTheEnd(s: string, found: nat, visitor: nat -> string)
    ensures CountFrom(s, |s|) == 0 && ReplaceFrom(s, |s|, found, visitor) == ""
  {
  }

  lemma {:induction false} UseGives(s: string, i: nat, k: nat, text: string, found: nat, visitor: nat -> string)
    requires Gives(s, i, k, text)
    ensures i <= |s| && k <= |s| && CountFrom(s, i) == CountFrom(s, k)
    ensures ReplaceFrom(s, i, found, visitor) == text + ReplaceFrom(s, k, found, visitor)
  {
    hide ReplaceFrom, CountFrom;
  }

  /** For every statement made of such segments `buildSql` succeeds exactly when there are as many values as
      placeholders outside protected text, and puts the literal of the k-th value for the k-th of them. */
  lemma {:induction false} BuildSqlIs(gs: seq<Segment>, params: seq<Value>, literal: Value -> string)
    requires FitAll(Text(gs), 0, gs)
    ensures var built := BuildSql(Text(gs), params, literal);
      && (built.Some? <==> MarksIn(gs) == |params|)
      && (built.Some? ==>
            built.value == Filled(gs, 0, (k: nat) => if k < |params| then literal(params[k]) else "?"))
  {
    hide ReplaceFrom, CountFrom, FitAll;
    TemplateFills(Text(gs), 0, gs, 0, (k: nat) => if k < |params| then literal(params[k]) else "?");
  }
}
