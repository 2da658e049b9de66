/** The placeholder scanner finds exactly the sites that `bindNamed` produced. */
module NamedParamsAgree {
  import opened Wrappers
  import opened SqlText
  import opened NamedParams

  // -------------------------------------------------- pieces do not look further

  /** Text s[i..k] reappears in t, d positions further on. */
  predicate Shift(s: string, i: nat, k: nat, t: string, d: int) {
    && i <= k <= |s| && 0 <= i + d && k + d <= |t|
    && forall x {:trigger s[x]} :: i <= x < k ==> t[x + d] == s[x]
  }

  lemma {:induction false} QuoteEndStops(s: string, i: nat, close: char, escapes: bool)
    ensures var r := QuoteEnd(s, i, close, escapes);
      r.Some? ==> s[r.value - 1] == close && !At(s, r.value, close)
    decreases |s| - i
  {
    if i < |s| {
      if s[i] == '\\' && escapes && i + 1 < |s| {
        QuoteEndStops(s, i + 2, close, escapes);
      } else if s[i] == close {
        if At(s, i + 1, close) { QuoteEndStops(s, i + 2, close, escapes); }
      } else {
        QuoteEndStops(s, i + 1, close, escapes);
      }
    }
  }

  lemma {:induction false} QuoteEndLocal(s: string, i: nat, close: char, escapes: bool, k: nat, t: string, d: int)
    requires QuoteEnd(s, i, close, escapes) == Some(k) && 0 <= i + d && close != '\\'
    requires Shift(s, i, k, t, d) && (k + d >= |t| || t[k + d] != close)
    ensures QuoteEnd(t, i + d, close, escapes) == Some(k + d)
    decreases |s| - i
  {
    assert t[i + d] == s[i];
    if s[i] == '\\' && escapes && i + 1 < |s| {
      assert t[i + 1 + d] == s[i + 1];
      QuoteEndLocal(s, i + 2, close, escapes, k, t, d);
    } else if s[i] == close {
      if At(s, i + 1, close) {
        assert t[i + 1 + d] == s[i + 1];
        QuoteEndLocal(s, i + 2, close, escapes, k, t, d);
      }
    } else {
      QuoteEndLocal(s, i + 1, close, escapes, k, t, d);
    }
  }

  lemma {:induction false} CommentEndLocal(s: string, i: nat, depth: nat, k: nat, t: string, d: int)
    requires i <= |s| && 0 <= i + d <= |t| && CommentEnd(s, i, depth) == Some(k)
    requires Shift(s, i, k, t, d)
    ensures CommentEnd(t, i + d, depth) == Some(k + d)
    ensures depth > 0 ==> s[k - 1] == '/'
    decreases |s| - i
  {
    if depth > 0 {
      assert t[i + d] == s[i] && t[i + 1 + d] == s[i + 1];
      if At2(s, i, '/', '*') {
        CommentEndLocal(s, i + 2, depth + 1, k, t, d);
      } else if At2(s, i, '*', '/') {
        CommentEndLocal(s, i + 2, depth - 1, k, t, d);
      } else {
        CommentEndLocal(s, i + 1, depth, k, t, d);
      }
    }
  }

  lemma {:induction false} LineEndLocal(s: string, i: nat, t: string, d: int)
    requires i <= |s| && 0 <= i + d <= |t|
    requires var e := LineEnd(s, i); Shift(s, i, e, t, d) && 0 <= e + d <= |t| && (e + d < |t| ==> t[e + d] == '\n')
    ensures LineEnd(t, i + d) == LineEnd(s, i) + d
    decreases |s| - i
  {
    if i < |s| && s[i] != '\n' {
      assert t[i + d] == s[i];
      LineEndLocal(s, i + 1, t, d);
    }
  }

  lemma {:induction false} WordEndLocal(s: string, i: nat, t: string, d: int)
    requires i <= |s| && 0 <= i + d <= |t|
    requires var e := WordEnd(s, i); Shift(s, i, e, t, d) && 0 <= e + d <= |t| && (e + d < |t| ==> !Next(t[e + d]))
    ensures WordEnd(t, i + d) == WordEnd(s, i) + d
    decreases |s| - i
  {
    if i < |s| && Next(s[i]) {
      assert t[i + d] == s[i];
      WordEndLocal(s, i + 1, t, d);
    }
  }

  lemma OccursLocal(s: string, pat: string, x: nat, i: nat, k: nat, t: string, d: int)
    requires Shift(s, i, k, t, d) && i <= x && x + |pat| <= k && 0 <= x + d
    ensures Occurs(t, pat, x + d) <==> Occurs(s, pat, x)
  {
    assert s[x..x + |pat|] == t[x + d..x + d + |pat|];
  }

  lemma FindLocal(s: string, pat: string, i: nat, k: nat, t: string, d: int)
    requires pat != "" && Find(s, pat, i) == Some(k) && Shift(s, i, k + |pat|, t, d) && 0 <= i + d
    ensures Find(t, pat, i + d) == Some(k + d)
  {
    OccursLocal(s, pat, k, i, k + |pat|, t, d);
    forall y | i + d <= y < k + d
      ensures !Occurs(t, pat, y)
    {
      OccursLocal(s, pat, y - d, i, k + |pat|, t, d);
    }
  }

  // --------------------------------------------------- positions in the two texts

  /** Position k of s and position m of t go on alike; a `:` may have become a `?`. */
  predicate Follows(s: string, k: nat, t: string, m: nat) {
    && k <= |s| && m <= |t| && (k == |s| <==> m == |t|)
    && (k < |s| ==> t[m] == s[k] || (s[k] == ':' && t[m] == '?'))
    && |t| - m <= |s| - k
  }

  /** They are preceded alike; a name may have become a `?`, and no other `?` comes before anything but a line end. */
  predicate Preceded(s: string, i: nat, t: string, m: nat) {
    && i <= |s| && m <= |t| && (i == 0 <==> m == 0)
    && (i > 0 ==>
          || (t[m - 1] == s[i - 1] && (s[i - 1] == '?' ==> i == |s| || s[i] == '\n'))
          || (t[m - 1] == '?' && Next(s[i - 1])))
  }

  /** The output of binding s from i on is what t holds from m on. */
  predicate Output(s: string, i: nat, values: map<string, Value>, t: string, m: nat) {
    && i <= |s| && m <= |t| && BindFrom(s, i, values).Bound? && t[m..] == BindFrom(s, i, values).sql
  }

  lemma RawOutput(s: string, i: nat, values: map<string, Value>, t: string, m: nat)
    requires i < |s| && Output(s, i, values, t, m) && BindStep(s, i).Raw?
    ensures var k := BindStep(s, i).next; var n := m + (k - i);
      && n <= |t| && t[m] == s[i] && t[m..n] == s[i..k] && Shift(s, i, k, t, m - i)
      && Output(s, k, values, t, n) && BindFrom(s, i, values).params == BindFrom(s, k, values).params
  {
    hide BindStep;
    var k := BindStep(s, i).next;
    var out, rest := BindFrom(s, i, values).sql, BindFrom(s, k, values).sql;
    assert out == s[i..k] + rest;
    assert out[..k - i] == s[i..k] && out[k - i..] == rest;
    assert t[m..][..k - i] == t[m..m + (k - i)] && t[m..][k - i..] == t[m + (k - i)..];
    forall x | i <= x < k
      ensures t[x + (m - i)] == s[x]
    {
      assert t[m..][x - i] == s[i..k][x - i];
    }
  }

  lemma SiteOutput(s: string, i: nat, values: map<string, Value>, t: string, m: nat)
    requires i < |s| && Output(s, i, values, t, m) && BindStep(s, i).Site?
    ensures var k := BindStep(s, i).next;
      && s[i] == ':' && Next(s[k - 1]) && m < |t| && t[m] == '?' && Output(s, k, values, t, m + 1)
      && |BindFrom(s, i, values).params| == |BindFrom(s, k, values).params| + 1
  {
    var k := BindStep(s, i).next;
    var out, rest := BindFrom(s, i, values).sql, BindFrom(s, k, values).sql;
    assert out[0] == '?' && out[1..] == rest;
    assert t[m..][1..] == t[m + 1..];
  }

  lemma OutputEnd(s: string, values: map<string, Value>, t: string, m: nat)
    requires Output(s, |s|, values, t, m)
    ensures m == |t| && BindFrom(s, |s|, values).params == []
  {
  }

  lemma OutputStep(s: string, i: nat, values: map<string, Value>, t: string, m: nat)
    requires i < |s| && Output(s, i, values, t, m)
    ensures !BindStep(s, i).Bad?
  {
  }

  lemma {:induction false} OutputHead(s: string, i: nat, values: map<string, Value>, t: string, m: nat)
    requires Output(s, i, values, t, m)
    ensures Follows(s, i, t, m)
    decreases |s| - i
  {
    hide BindStep;
    if i < |s| {
      if BindStep(s, i).Raw? {
        RawOutput(s, i, values, t, m);
        OutputHead(s, BindStep(s, i).next, values, t, m + (BindStep(s, i).next - i));
      } else {
        SiteOutput(s, i, values, t, m);
        OutputHead(s, BindStep(s, i).next, values, t, m + 1);
      }
    }
  }

  /** A `$` directly after an identifier character. */
  predicate IdentifierDollar(s: string, i: nat)
    requires i < |s|
  {
    s[i] == '$' && i > 0 && Next(s[i - 1])
  }

  /** The tag that a `$` at i opens. */
  function Tag(s: string, i: nat): (tag: string)
    requires i < |s| && OpensTag(s, i)
    ensures |tag| == WordEnd(s, i + 1) + 1 - i
  {
    s[i..WordEnd(s, i + 1) + 1]
  }

  /** Where the dollar quote that a `$` at i opens is over, if it is closed. */
  function Closed(s: string, i: nat): (end: Option<nat>)
    requires i < |s| && OpensTag(s, i)
    ensures end.Some? ==> i < end.value <= |s|
  {
    var close := Find(s, Tag(s, i), WordEnd(s, i + 1) + 1);
    if close.Some? then Some(close.value + |Tag(s, i)|) else None
  }

  /** It does not look like the start of a dollar quote that is closed later. */
  predicate HarmlessDollar(s: string, i: nat)
    requires i < |s|
  {
    IdentifierDollar(s, i) && OpensTag(s, i) ==> Closed(s, i).None?
  }

  /** The bind scan goes from i to j over raw text only. */
  predicate RawTo(s: string, i: nat, j: nat)
    requires i <= |s|
    decreases |s| - i
  {
    i == j || (i < j && i < |s| && BindStep(s, i).Raw? && RawTo(s, BindStep(s, i).next, j))
  }

  /** Where the two scans, together at i, are together again: at the end of the piece, or behind the dollar quote that
      a `$` inside an identifier opens. None when that quote holds a site or ends inside some other piece. */
  function Meet(s: string, i: nat): (r: Option<nat>)
    requires i < |s| && !BindStep(s, i).Bad?
    ensures r.Some? ==> i < r.value <= |s|
  {
    if HarmlessDollar(s, i) then Some(BindStep(s, i).next)
    else if RawTo(s, i, Closed(s, i).value) then Closed(s, i)
    else None
  }

  /** The two scans keep meeting from i on. */
  predicate InStep(s: string, i: nat)
    requires i <= |s|
    decreases |s| - i
  {
    i == |s| || BindStep(s, i).Bad? || (Meet(s, i).Some? && InStep(s, Meet(s, i).value))
  }

  /** Output without a `?` is the input. */
  lemma {:induction false} PrefixBack(s: string, i: nat, values: map<string, Value>, t: string, m: nat, r: nat)
    requires Output(s, i, values, t, m) && m + r <= |t| && forall x :: m <= x < m + r ==> t[x] != '?'
    ensures Shift(t, m, m + r, s, i - m)
    decreases |s| - i
  {
    hide BindStep, BindFrom;
    OutputHead(s, i, values, t, m);
    if r > 0 {
      OutputStep(s, i, values, t, m);
      if BindStep(s, i).Raw? {
        RawOutput(s, i, values, t, m);
        var k := BindStep(s, i).next;
        var n := m + (k - i);
        if n < m + r { PrefixBack(s, k, values, t, n, m + r - n); }
        forall x | m <= x < m + r ensures 0 <= x + (i - m) < |s| && s[x + (i - m)] == t[x] {
          if x < n { ShiftBack(s, i, k, t, m - i, x); }
        }
      } else {
        SiteOutput(s, i, values, t, m);
      }
    }
  }

  lemma {:induction false} ShiftBack(s: string, i: nat, k: nat, t: string, d: int, x: nat)
    requires Shift(s, i, k, t, d) && i + d <= x < k + d
    ensures s[x - d] == t[x]
  {
    var y := x - d;
    assert t[y + d] == s[y];
  }

  /** What occurs in the output, and has no `?`, occurs in the input, at least as far on. */
  lemma {:induction false} OccursBack(
    s: string, i: nat, values: map<string, Value>, t: string, m: nat, pat: string, x: nat) returns (y: nat)
    requires Output(s, i, values, t, m) && m <= x && Occurs(t, pat, x) && pat != "" && '?' !in pat
    ensures x - m <= y - i && Occurs(s, pat, y)
    decreases |s| - i
  {
    hide BindStep, BindFrom;
    OutputHead(s, i, values, t, m);
    OutputStep(s, i, values, t, m);
    var k := BindStep(s, i).next;
    if BindStep(s, i).Site? {
      SiteOutput(s, i, values, t, m);
      assert t[x] == t[x..x + |pat|][0] == pat[0] && pat[0] in pat;
      y := OccursBack(s, k, values, t, m + 1, pat, x);
    } else {
      RawOutput(s, i, values, t, m);
      var n := m + (k - i);
      if x >= n {
        y := OccursBack(s, k, values, t, n, pat, x);
      } else {
        y := x + (i - m);
        OccursFrom(s, i, values, t, m, pat, x);
      }
    }
  }

  /** The same for an occurrence that begins inside the next piece. */
  lemma {:induction false} OccursFrom(
    s: string, i: nat, values: map<string, Value>, t: string, m: nat, pat: string, x: nat)
    requires i < |s| && Output(s, i, values, t, m) && BindStep(s, i).Raw?
    requires m <= x < m + (BindStep(s, i).next - i) && Occurs(t, pat, x) && '?' !in pat
    ensures Occurs(s, pat, x + (i - m))
  {
    hide BindStep, BindFrom;
    RawOutput(s, i, values, t, m);
    var k, end := BindStep(s, i).next, x + |pat|;
    var n := m + (k - i);
    forall z | x <= z < end ensures t[z] != '?' { assert t[z] == t[x..end][z - x] == pat[z - x] && pat[z - x] in pat; }
    if n < end { PrefixBack(s, k, values, t, n, end - n); }
    forall z | x <= z < end ensures 0 <= z + (i - m) < |s| && s[z + (i - m)] == t[z] {
      if z < n { ShiftBack(s, i, k, t, m - i, z); }
    }
    assert Shift(t, x, end, s, i - m);
    OccursLocal(t, pat, x, x, end, s, i - m);
  }

  // ------------------------------------------------- one iteration of each scan

  /** Where the tag of a dollar quote opened at i ends. */
  function TagEnd(s: string, i: nat): nat
    requires i < |s|
  {
    if i + 1 < |s| && First(s[i + 1]) then WordEnd(s, i + 1) else i + 1
  }

  lemma OccursEnd(s: string, pat: string, k: nat)
    requires Occurs(s, pat, k) && pat != ""
    ensures s[k + |pat| - 1] == pat[|pat| - 1]
  {
    assert s[k..k + |pat|][|pat| - 1] == s[k + |pat| - 1];
  }

  /** The parts of a dollar quote that binding accepted. */
  lemma DollarParts(s: string, i: nat) returns (k: nat)
    requires i < |s| && s[i] == '$' && (i == 0 || !Next(s[i - 1])) && BindStep(s, i).Raw?
    ensures var e := TagEnd(s, i);
      && At(s, e, '$') && WordEnd(s, i + 1) == e && (e == i + 1 || First(s[i + 1]))
      && Find(s, s[i..e + 1], e + 1) == Some(k) && BindStep(s, i).next == k + (e + 1 - i)
      && s[BindStep(s, i).next - 1] == '$'
  {
    hide QuoteEnd, CommentEnd, Find, LineEnd;
    var e := TagEnd(s, i);
    k := Find(s, s[i..e + 1], e + 1).value;
    OccursEnd(s, s[i..e + 1], k);
  }

  lemma RawEnd(s: string, i: nat)
    requires i < |s| && BindStep(s, i).Raw?
    ensures var k := BindStep(s, i).next; s[k - 1] == '?' ==> k == |s| || s[k] == '\n'
  {
    hide QuoteEnd, CommentEnd, Find, LineEnd, WordEnd;
    var c := s[i];
    if c == '\'' || c == '"' || c == '`' || BracketIdentifier(s, i) {
      QuoteEndStops(s, i + 1, if c == '[' then ']' else c, c != '[');
    } else if c == '/' && At(s, i + 1, '*') {
      CommentEndLocal(s, i + 2, 1, BindStep(s, i).next, s, 0);
    } else if (c == 'q' || c == 'Q') && i + 2 < |s| && s[i + 1] == '\'' {
      OccursEnd(s, [Closer(s[i + 2]), '\''], BindStep(s, i).next - 2);
    } else if c == '$' && (i == 0 || !Next(s[i - 1])) {
      var k := DollarParts(s, i);
    }
  }

  lemma QuoteAgrees(s: string, i: nat, t: string, d: int)
    requires i < |s| && 0 <= i + d && Preceded(s, i, t, i + d)
    requires s[i] == '\'' || s[i] == '"' || s[i] == '`' || BracketIdentifier(s, i)
    requires BindStep(s, i).Raw? && Shift(s, i, BindStep(s, i).next, t, d)
    requires Follows(s, BindStep(s, i).next, t, BindStep(s, i).next + d)
    ensures ReplaceStep(t, i + d) == BindStep(s, i).next + d
  {
    var c, k := s[i], BindStep(s, i).next;
    assert t[i + d] == c;
    var close := if c == '[' then ']' else c;
    QuoteEndStops(s, i + 1, close, c != '[');
    QuoteEndLocal(s, i + 1, close, c != '[', k, t, d);
    if c == '[' { assert !PlainBracket(t, i + d); }
  }

  lemma CommentAgrees(s: string, i: nat, t: string, d: int)
    requires i < |s| && 0 <= i + d && s[i] == '/' && At(s, i + 1, '*')
    requires BindStep(s, i).Raw? && Shift(s, i, BindStep(s, i).next, t, d)
    ensures ReplaceStep(t, i + d) == BindStep(s, i).next + d
  {
    assert t[i + d] == '/' && t[i + 1 + d] == '*';
    CommentEndLocal(s, i + 2, 1, BindStep(s, i).next, t, d);
  }

  lemma LineAgrees(s: string, i: nat, t: string, d: int)
    requires i < |s| && 0 <= i + d && s[i] == '-' && At(s, i + 1, '-')
    requires Shift(s, i, BindStep(s, i).next, t, d)
    requires Follows(s, BindStep(s, i).next, t, BindStep(s, i).next + d)
    ensures var m := BindStep(s, i).next + d;
      if m < |t| then t[m] == '\n' && ReplaceStep(t, i + d) == m + 1 else ReplaceStep(t, i + d) == m
  {
    assert LineEnd(s, i) == LineEnd(s, i + 1) && LineEnd(s, i + 1) == LineEnd(s, i + 2);
    assert t[i + d] == '-' && t[i + 1 + d] == '-';
    LineEndLocal(s, i, t, d);
  }

  lemma AlternativeAgrees(s: string, i: nat, t: string, d: int)
    requires i + 2 < |s| && 0 <= i + d && (s[i] == 'q' || s[i] == 'Q') && s[i + 1] == '\''
    requires BindStep(s, i).Raw? && Shift(s, i, BindStep(s, i).next, t, d)
    ensures ReplaceStep(t, i + d) == BindStep(s, i).next + d
  {
    var k := BindStep(s, i).next - 2;
    assert t[i + d] == s[i] && t[i + 1 + d] == s[i + 1] && t[i + 2 + d] == s[i + 2];
    FindLocal(s, [Closer(s[i + 2]), '\''], i + 3, k, t, d);
  }

  lemma DollarAgrees(s: string, i: nat, t: string, d: int)
    requires i < |s| && 0 <= i + d && s[i] == '$' && (i == 0 || !Next(s[i - 1]))
    requires BindStep(s, i).Raw? && Shift(s, i, BindStep(s, i).next, t, d)
    ensures ReplaceStep(t, i + d) == BindStep(s, i).next + d
  {
    hide BindStep, ReplaceStep, Find, WordEnd, TagEnd, Occurs;
    var k := DollarParts(s, i);
    var e := TagEnd(s, i);
    TagLocal(s, i, e, t, d);
    FindLocal(s, s[i..e + 1], e + 1, k, t, d);
    DollarStep(t, i + d, e + d, s[i..e + 1], k + d);
  }

  lemma TagLocal(s: string, i: nat, e: nat, t: string, d: int)
    requires i < e < |s| && s[i] == '$' && s[e] == '$' && WordEnd(s, i + 1) == e && (e == i + 1 || First(s[i + 1]))
    requires Shift(s, i, e + 1, t, d)
    ensures t[i + d] == '$' && t[e + d] == '$' && WordEnd(t, i + 1 + d) == e + d
    ensures t[i + d..e + d + 1] == s[i..e + 1] && (e == i + 1 || !Digit(t[i + 1 + d]))
  {
    hide WordEnd;
    WordEndLocal(s, i + 1, t, d);
  }

  lemma DollarStep(t: string, m: nat, e: nat, tag: string, k: nat)
    requires m < e < |t| && t[m] == '$' && t[e] == '$' && WordEnd(t, m + 1) == e && tag == t[m..e + 1]
    requires e == m + 1 || !Digit(t[m + 1])
    requires Find(t, tag, e + 1) == Some(k)
    ensures ReplaceStep(t, m) == k + |tag|
  {
  }

  /** A tag that the output opens is the input's own tag. */
  lemma {:induction false} TagBack(s: string, i: nat, values: map<string, Value>, t: string, m: nat)
    requires i < |s| && m < |t| && Output(s, i, values, t, m) && t[m] == '$' && OpensTag(t, m)
    ensures OpensTag(s, i) && WordEnd(s, i + 1) - i == WordEnd(t, m + 1) - m
    ensures s[i..WordEnd(s, i + 1) + 1] == t[m..WordEnd(t, m + 1) + 1]
  {
    hide BindFrom, WordEnd, BindStep;
    var e := WordEnd(t, m + 1);
    PrefixBack(s, i, values, t, m, e + 1 - m);
    assert s[e + (i - m)] == t[e];
    WordEndLocal(t, m + 1, s, i - m);
    if m + 1 < e { assert s[m + 1 + (i - m)] == t[m + 1]; }
    assert s[i..e + (i - m) + 1] == t[m..e + 1];
  }

  /** What occurs nowhere behind a position of the input occurs nowhere behind the matching one of the output. */
  lemma {:induction false} AbsentBack(
    s: string, i: nat, values: map<string, Value>, t: string, m: nat, pat: string, r: nat)
    requires Output(s, i, values, t, m) && pat != "" && '?' !in pat && Find(s, pat, i + r).None?
    ensures Find(t, pat, m + r).None?
  {
    hide BindFrom, BindStep, Occurs, Output;
    var close := Find(t, pat, m + r);
    if close.Some? { var y := OccursBack(s, i, values, t, m, pat, close.value); }
  }

  lemma {:induction false} TagHasNoMark(t: string, m: nat)
    requires m < |t| && t[m] == '$' && OpensTag(t, m)
    ensures '?' !in t[m..WordEnd(t, m + 1) + 1] && t[m..WordEnd(t, m + 1) + 1] != ""
  {
    hide WordEnd;
    var tag := t[m..WordEnd(t, m + 1) + 1];
    forall x | 0 <= x < |tag| ensures tag[x] != '?' { assert tag[x] == t[m + x]; }
  }

  lemma {:induction false} UnclosedTag(s: string, i: nat, values: map<string, Value>, t: string, m: nat)
    requires i < |s| && m < |t| && Output(s, i, values, t, m) && t[m] == '$' && OpensTag(t, m)
    requires OpensTag(s, i) ==> Closed(s, i).None?
    ensures ReplaceStep(t, m) == m + 1
  {
    hide BindFrom, WordEnd, BindStep, Find, Output;
    TagBack(s, i, values, t, m);
    TagHasNoMark(t, m);
    AbsentBack(s, i, values, t, m, t[m..WordEnd(t, m + 1) + 1], WordEnd(t, m + 1) + 1 - m);
  }

  lemma OtherAgrees(s: string, i: nat, values: map<string, Value>, t: string, m: nat)
    requires i < |s| && Output(s, i, values, t, m) && BindStep(s, i) == Raw(i + 1) && Preceded(s, i, t, m)
    requires HarmlessDollar(s, i)
    requires !(s[i] == '\'' || s[i] == '"' || s[i] == '`' || BracketIdentifier(s, i))
    requires !(s[i] == '-' && At(s, i + 1, '-')) && !(s[i] == '/' && At(s, i + 1, '*'))
    requires !((s[i] == 'q' || s[i] == 'Q') && i + 2 < |s| && s[i + 1] == '\'')
    requires !(s[i] == '$' && (i == 0 || !Next(s[i - 1])))
    ensures ReplaceStep(t, m) == m + 1
  {
    hide QuoteEnd, CommentEnd, Find, LineEnd, WordEnd, BindFrom;
    RawOutput(s, i, values, t, m);
    OutputHead(s, i + 1, values, t, m + 1);
    if s[i] == '$' && OpensTag(t, m) { UnclosedTag(s, i, values, t, m); }
  }

  /** Line comments and casts: the only pieces the two scans cut differently. */
  predicate Uneven(s: string, i: nat)
    requires i < |s|
  {
    (s[i] == '-' && At(s, i + 1, '-')) || (s[i] == ':' && At(s, i + 1, ':'))
  }

  lemma PieceAgrees(s: string, i: nat, values: map<string, Value>, t: string, m: nat)
    requires i < |s| && Output(s, i, values, t, m) && BindStep(s, i).Raw? && !Uneven(s, i)
    requires Preceded(s, i, t, m)
    requires HarmlessDollar(s, i)
    ensures ReplaceStep(t, m) == m + (BindStep(s, i).next - i)
  {
    hide QuoteEnd, CommentEnd, Find, LineEnd, WordEnd, ReplaceStep, BindFrom, OpensTag;
    var k, d := BindStep(s, i).next, m - i;
    RawOutput(s, i, values, t, m);
    var c := s[i];
    if c == '\'' || c == '"' || c == '`' || BracketIdentifier(s, i) {
      OutputHead(s, k, values, t, k + d);
      QuoteAgrees(s, i, t, d);
    } else if c == '/' && At(s, i + 1, '*') {
      CommentAgrees(s, i, t, d);
    } else if (c == 'q' || c == 'Q') && i + 2 < |s| && s[i + 1] == '\'' {
      AlternativeAgrees(s, i, t, d);
    } else if c == '$' && (i == 0 || !Next(s[i - 1])) {
      DollarAgrees(s, i, t, d);
    } else {
      OtherAgrees(s, i, values, t, m);
    }
  }

  /** Scanning t from m on gives `text`, then what scanning from n on gives. */
  ghost predicate Copies(t: string, m: nat, n: nat, text: string) {
    && m <= |t| && n <= |t| && CountFrom(t, m) == CountFrom(t, n)
    && forall found: nat, visitor: nat -> string ::
         ReplaceFrom(t, m, found, visitor) == text + ReplaceFrom(t, n, found, visitor)
  }

  lemma UseCopies(t: string, m: nat, n: nat, text: string, found: nat, visitor: nat -> string)
    requires Copies(t, m, n, text)
    ensures m <= |t| && n <= |t| && CountFrom(t, m) == CountFrom(t, n)
    ensures ReplaceFrom(t, m, found, visitor) == text + ReplaceFrom(t, n, found, visitor)
  {
    hide ReplaceFrom, CountFrom;
  }

  lemma CopiesStep(t: string, m: nat)
    requires m < |t| && t[m] != '?'
    ensures Copies(t, m, ReplaceStep(t, m), t[m..ReplaceStep(t, m)])
  {
    hide ReplaceStep;
  }

  lemma CopiesTwice(t: string, l: nat, m: nat, n: nat)
    requires l <= m <= n <= |t| && Copies(t, l, m, t[l..m]) && Copies(t, m, n, t[m..n])
    ensures Copies(t, l, n, t[l..n])
  {
    hide ReplaceFrom, CountFrom;
    forall found: nat, visitor: nat -> string
      ensures ReplaceFrom(t, l, found, visitor) == t[l..n] + ReplaceFrom(t, n, found, visitor)
    {
      var rest := ReplaceFrom(t, n, found, visitor);
      assert t[l..m] + (t[m..n] + rest) == (t[l..m] + t[m..n]) + rest;
      assert t[l..m] + t[m..n] == t[l..n];
    }
  }

  lemma CopiesBack(t: string, l: nat, m: nat, n: nat)
    requires l <= m <= n <= |t| && Copies(t, l, n, t[l..n]) && Copies(t, m, n, t[m..n])
    ensures Copies(t, l, m, t[l..m])
  {
    hide ReplaceFrom, CountFrom;
    forall found: nat, visitor: nat -> string
      ensures ReplaceFrom(t, l, found, visitor) == t[l..m] + ReplaceFrom(t, m, found, visitor)
    {
      var rest := ReplaceFrom(t, n, found, visitor);
      assert t[l..m] + (t[m..n] + rest) == (t[l..m] + t[m..n]) + rest;
      assert t[l..m] + t[m..n] == t[l..n];
    }
  }

  lemma CastAgrees(t: string, m: nat)
    requires At2(t, m, ':', ':')
    ensures Copies(t, m, m + 2, t[m..m + 2])
  {
    hide Copies;
    CopiesStep(t, m);
    CopiesStep(t, m + 1);
    CopiesTwice(t, m, m + 1, m + 2);
  }

  /** The scan runs one character past a line comment, over its newline. */
  lemma LineCommentAgrees(s: string, i: nat, t: string, d: int)
    requires i < |s| && 0 <= i + d && s[i] == '-' && At(s, i + 1, '-')
    requires Shift(s, i, BindStep(s, i).next, t, d) && t[i + d] == '-'
    requires Follows(s, BindStep(s, i).next, t, BindStep(s, i).next + d)
    ensures Copies(t, i + d, BindStep(s, i).next + d, t[i + d..BindStep(s, i).next + d])
  {
    hide Copies, LineEnd, Follows;
    var n := BindStep(s, i).next + d;
    LineAgrees(s, i, t, d);
    CopiesStep(t, i + d);
    if n < |t| {
      CopiesStep(t, n);
      assert ReplaceStep(t, n) == n + 1;
      CopiesBack(t, i + d, n, n + 1);
    }
  }

  /** Scanning on from a raw piece's end gives the same result as from its start, the piece copied. */
  lemma RawAgrees(s: string, i: nat, values: map<string, Value>, t: string, m: nat)
    requires i < |s| && Output(s, i, values, t, m) && BindStep(s, i).Raw? && Preceded(s, i, t, m)
    requires HarmlessDollar(s, i)
    ensures var k := BindStep(s, i).next; Copies(t, m, m + (k - i), s[i..k])
  {
    hide QuoteEnd, CommentEnd, Find, LineEnd, WordEnd, BindFrom, OpensTag, Copies, ReplaceStep, Preceded;
    var k, d := BindStep(s, i).next, m - i;
    RawOutput(s, i, values, t, m);
    if !Uneven(s, i) {
      PieceAgrees(s, i, values, t, m);
      CopiesStep(t, m);
    } else if s[i] == ':' {
      assert s[i + 1] == ':' && t[i + 1 + d] == s[i + 1];
      CastAgrees(t, m);
    } else {
      OutputHead(s, k, values, t, k + d);
      LineCommentAgrees(s, i, t, d);
    }
  }

  lemma {:induction false} RawRun(s: string, i: nat, values: map<string, Value>, t: string, m: nat, j: nat)
    requires Output(s, i, values, t, m) && RawTo(s, i, j) && j <= |s|
    ensures i <= j && m + (j - i) <= |t| && Shift(s, i, j, t, m - i) && Output(s, j, values, t, m + (j - i))
    ensures BindFrom(s, i, values).params == BindFrom(s, j, values).params
    decreases |s| - i
  {
    hide BindStep, BindFrom;
    if i < j {
      RawOutput(s, i, values, t, m);
      var k := BindStep(s, i).next;
      RawRun(s, k, values, t, m + (k - i), j);
      forall x | i <= x < j ensures t[x + (m - i)] == s[x] { }
    }
  }

  /** The step of the second scan at a dollar quote that it finds again in its own text. */
  lemma {:induction false} TagStep(s: string, i: nat, t: string, d: int)
    requires i < |s| && s[i] == '$' && OpensTag(s, i) && Closed(s, i).Some? && Shift(s, i, Closed(s, i).value, t, d)
    ensures var end := Closed(s, i).value; t[i + d] == '$' && ReplaceStep(t, i + d) == end + d && s[end - 1] == '$'
  {
    hide ReplaceStep, Find, WordEnd, Occurs;
    var tag, e := Tag(s, i), WordEnd(s, i + 1);
    var close := Find(s, tag, e + 1).value;
    if i + 1 < e { assert Next(s[i + 1]); }
    TagLocal(s, i, e, t, d);
    FindLocal(s, tag, e + 1, close, t, d);
    DollarStep(t, i + d, e + d, tag, close + d);
    OccursEnd(s, tag, close);
  }

  /** A dollar quote that only the second scan takes for one, over raw text. */
  lemma {:induction false} TagAgrees(s: string, i: nat, values: map<string, Value>, t: string, m: nat)
    requires i < |s| && Output(s, i, values, t, m) && IdentifierDollar(s, i) && OpensTag(s, i)
    requires Closed(s, i).Some? && RawTo(s, i, Closed(s, i).value)
    ensures var end := Closed(s, i).value;
      && Output(s, end, values, t, m + (end - i)) && BindFrom(s, i, values).params == BindFrom(s, end, values).params
      && Copies(t, m, m + (end - i), s[i..end]) && Preceded(s, end, t, m + (end - i))
  {
    hide BindStep, ReplaceStep, BindFrom, Closed, Copies, OpensTag;
    var end := Closed(s, i).value;
    RawRun(s, i, values, t, m, end);
    TagStep(s, i, t, m - i);
    CopiesStep(t, m);
    assert t[m..end + (m - i)] == s[i..end];
    assert t[end - 1 + (m - i)] == s[end - 1];
  }

  lemma RawPreceded(s: string, i: nat, values: map<string, Value>, t: string, m: nat)
    requires i < |s| && Output(s, i, values, t, m) && BindStep(s, i).Raw?
    ensures var k := BindStep(s, i).next; Preceded(s, k, t, m + (k - i))
  {
    hide BindStep, BindFrom;
    RawOutput(s, i, values, t, m);
    RawEnd(s, i);
    var k := BindStep(s, i).next;
    assert t[k - 1 + (m - i)] == s[k - 1];
  }

  lemma SitePreceded(s: string, i: nat, values: map<string, Value>, t: string, m: nat)
    requires i < |s| && Output(s, i, values, t, m) && BindStep(s, i).Site?
    ensures Preceded(s, BindStep(s, i).next, t, m + 1)
  {
    hide BindStep, BindFrom;
    SiteOutput(s, i, values, t, m);
  }

  // ---------------------------------------------------------------- theorems

  /** Raw text is copied up to where the scans meet. */
  lemma {:induction false} RawMeets(s: string, i: nat, values: map<string, Value>, t: string, m: nat)
    requires i < |s| && Output(s, i, values, t, m) && BindStep(s, i).Raw? && Preceded(s, i, t, m) && Meet(s, i).Some?
    ensures var k := Meet(s, i).value;
      && m + (k - i) <= |t| && Copies(t, m, m + (k - i), s[i..k]) && Preceded(s, k, t, m + (k - i))
      && Output(s, k, values, t, m + (k - i)) && BindFrom(s, i, values).params == BindFrom(s, k, values).params
      && RawTo(s, i, k)
  {
    hide BindStep, BindFrom, Copies, Preceded, Shift, OpensTag, Closed;
    if HarmlessDollar(s, i) {
      RawOutput(s, i, values, t, m);
      RawPreceded(s, i, values, t, m);
      RawAgrees(s, i, values, t, m);
    } else {
      TagAgrees(s, i, values, t, m);
    }
  }

  /** The input from i on, its k-th `:name` replaced by the visitor's text for k. */
  function Expand(s: string, i: nat, found: nat, visitor: nat -> string): string
    requires i <= |s|
    decreases |s| - i
  {
    if i == |s| then ""
    else
      match BindStep(s, i)
      case Bad => ""
      case Raw(next) => s[i..next] + Expand(s, next, found, visitor)
      case Site(next) => visitor(found) + Expand(s, next, found + 1, visitor)
  }

  lemma {:induction false} ExpandRaw(s: string, i: nat, j: nat, found: nat, visitor: nat -> string)
    requires i <= |s| && j <= |s| && RawTo(s, i, j)
    ensures i <= j && Expand(s, i, found, visitor) == s[i..j] + Expand(s, j, found, visitor)
    decreases |s| - i
  {
    hide BindStep, Expand;
    if i < j {
      var k := BindStep(s, i).next;
      ExpandPiece(s, i, found, visitor);
      ExpandRaw(s, k, j, found, visitor);
      Joined(s, i, k, j, Expand(s, j, found, visitor));
    }
  }

  lemma {:induction false} Joined(s: string, i: nat, k: nat, j: nat, rest: string)
    requires i <= k <= j <= |s|
    ensures s[i..k] + (s[k..j] + rest) == s[i..j] + rest
  {
    assert s[i..j] == s[i..k] + s[k..j];
  }

  lemma {:induction false} ExpandPiece(s: string, i: nat, found: nat, visitor: nat -> string)
    requires i < |s| && BindStep(s, i).Raw?
    ensures var k := BindStep(s, i).next;
      Expand(s, i, found, visitor) == s[i..k] + Expand(s, k, found, visitor)
  {
    hide BindStep;
  }

  lemma {:induction false} ExpandSite(s: string, i: nat, found: nat, visitor: nat -> string)
    requires i < |s| && BindStep(s, i).Site?
    ensures Expand(s, i, found, visitor) == visitor(found) + Expand(s, BindStep(s, i).next, found + 1, visitor)
  {
    hide BindStep;
  }

  lemma SiteTo(t: string, m: nat, found: nat, visitor: nat -> string)
    requires m < |t| && t[m] == '?'
    ensures ReplaceFrom(t, m, found, visitor) == visitor(found) + ReplaceFrom(t, m + 1, found + 1, visitor)
    ensures CountFrom(t, m) == 1 + CountFrom(t, m + 1)
  {
  }

  lemma EndsAgree(s: string, values: map<string, Value>, t: string, m: nat, found: nat, visitor: nat -> string)
    requires Output(s, |s|, values, t, m)
    ensures ReplaceFrom(t, m, found, visitor) == Expand(s, |s|, found, visitor)
    ensures CountFrom(t, m) == |BindFrom(s, |s|, values).params|
  {
    OutputEnd(s, values, t, m);
  }

  lemma {:induction false} ScansAgree(
    s: string, i: nat, values: map<string, Value>, t: string, m: nat, found: nat, visitor: nat -> string)
    requires Output(s, i, values, t, m) && InStep(s, i) && Preceded(s, i, t, m)
    ensures ReplaceFrom(t, m, found, visitor) == Expand(s, i, found, visitor)
    ensures CountFrom(t, m) == |BindFrom(s, i, values).params|
    decreases |s| - i
  {
    hide BindStep, ReplaceStep, OpensTag, BindFrom, ReplaceFrom, CountFrom, Expand, Preceded, Shift, Copies, RawTo;
    if i == |s| {
      EndsAgree(s, values, t, m, found, visitor);
    } else {
      OutputStep(s, i, values, t, m);
      var k := Meet(s, i).value;
      if BindStep(s, i).Raw? {
        RawMeets(s, i, values, t, m);
        UseCopies(t, m, m + (k - i), s[i..k], found, visitor);
        ExpandRaw(s, i, k, found, visitor);
        ScansAgree(s, k, values, t, m + (k - i), found, visitor);
      } else {
        SiteOutput(s, i, values, t, m);
        SitePreceded(s, i, values, t, m);
        SiteTo(t, m, found, visitor);
        ExpandSite(s, i, found, visitor);
        ScansAgree(s, k, values, t, m + 1, found + 1, visitor);
      }
    }
  }

  /** The input from i on with every `:name` replaced by f(name). */
  function Inline(s: string, i: nat, f: string -> string): string
    requires i <= |s|
    decreases |s| - i
  {
    if i == |s| then ""
    else
      match BindStep(s, i)
      case Bad => ""
      case Raw(next) => s[i..next] + Inline(s, next, f)
      case Site(next) => f(s[i + 1..next]) + Inline(s, next, f)
  }

  /** Putting every name back gives the input: nothing but the names is touched. */
  lemma {:induction false} InlineIdentity(s: string, i: nat, values: map<string, Value>)
    requires i <= |s| && BindFrom(s, i, values).Bound?
    ensures Inline(s, i, name => ":" + name) == s[i..]
    decreases |s| - i
  {
    hide BindStep;
    if i < |s| {
      var k := BindStep(s, i).next;
      InlineIdentity(s, k, values);
      if BindStep(s, i).Site? { SiteText(s, i); }
      assert s[i..k] + s[k..] == s[i..];
    }
  }

  lemma {:induction false} SiteText(s: string, i: nat)
    requires i < |s| && BindStep(s, i).Site?
    ensures var k := BindStep(s, i).next; ":" + s[i + 1..k] == s[i..k]
  {
    hide QuoteEnd, CommentEnd, LineEnd, Find;
    assert s[i] == ':';
  }

  lemma {:induction false} ExpandIsInline(s: string, i: nat, values: map<string, Value>, f: string -> string,
                                          all: seq<Value>, found: nat, visitor: nat -> string)
    requires i <= |s| && BindFrom(s, i, values).Bound?
    requires found <= |all| && all[found..] == BindFrom(s, i, values).params
    requires forall name <- values :: forall k: nat :: k < |all| && all[k] == values[name] ==> visitor(k) == f(name)
    ensures Expand(s, i, found, visitor) == Inline(s, i, f)
    decreases |s| - i
  {
    if i < |s| {
      var p := BindStep(s, i);
      if p.Raw? {
        ExpandIsInline(s, p.next, values, f, all, found, visitor);
      } else {
        assert all[found] == all[found..][0] == values[s[i + 1..p.next]];
        assert all[found + 1..] == all[found..][1..];
        ExpandIsInline(s, p.next, values, f, all, found + 1, visitor);
      }
    }
  }

  /**
    If binding succeeds and every dollar quote that a `$` inside an identifier
    seems to open is never closed or holds raw text only, `buildSql` on its output
    never reports a mismatch: it yields the original text with each name replaced
    by the literal of its own value.
  */
  lemma BindThenBuild(s: string, params: seq<(string, Value)>, literal: Value -> string)
    requires BindNamed(s, params).Bound? && InStep(s, 0)
    ensures var b := BindNamed(s, params); var values := Values(params).value;
      BuildSql(b.sql, b.params, literal) ==
        Some(Inline(s, 0, name => if name in values then literal(values[name]) else ""))
  {
    var b, values := BindNamed(s, params), Values(params).value;
    var visitor := (k: nat) => if k < |b.params| then literal(b.params[k]) else "?";
    var f := name => if name in values then literal(values[name]) else "";
    assert b.sql[0..] == b.sql && b.params[0..] == b.params;
    ScansAgree(s, 0, values, b.sql, 0, 0, visitor);
    ExpandIsInline(s, 0, values, f, b.params, 0, visitor);
  }

  lemma BindOne(s: string, i: nat, values: map<string, Value>)
    requires i < |s| && BindStep(s, i) == Raw(i + 1) && BindFrom(s, i + 1, values).Bound?
    ensures var b := BindFrom(s, i + 1, values); BindFrom(s, i, values) == b.(sql := [s[i]] + b.sql)
  {
    assert s[i..i + 1] == [s[i]];
  }

  const TRAP: string := "a$t$:x$t$"
  const TRAPPED: string := "a$t$?$t$"

  lemma TrapTail(values: map<string, Value>)
    requires values == map["x" := 7]
    ensures BindFrom(TRAP, 4, values) == Bound("?$t$", [7], {"x"})
  {
    var s := TRAP;
    assert BindFrom(s, 9, values) == Bound("", [], {});
    BindOne(s, 8, values);
    BindOne(s, 7, values);
    BindOne(s, 6, values);
    assert BindStep(s, 4) == Site(6) && s[5..6] == "x";
    assert BindFrom(s, 4, values) == Bound("?" + "$t$", [7] + [], {"x"} + {});
  }

  lemma TrapBinds(values: map<string, Value>)
    requires values == map["x" := 7]
    ensures BindFrom(TRAP, 0, values) == Bound(TRAPPED, [7], {"x"})
  {
    hide BindFrom;
    var s := TRAP;
    TrapTail(values);
    BindOne(s, 3, values);
    BindOne(s, 2, values);
    BindOne(s, 1, values);
    BindOne(s, 0, values);
  }

  lemma {:induction false} TrapOpens()
    ensures !InStep(TRAP, 0)
  {
    hide QuoteEnd, CommentEnd, LineEnd;
    var s := TRAP;
    assert WordEnd(s, 2) == 3 && OpensTag(s, 1) && IdentifierDollar(s, 1);
    assert s[1..4] == "$t$" && s[6..9] == "$t$";
    assert Occurs(s, "$t$", 6);
    assert !HarmlessDollar(s, 1);
    TrapIsNotRaw(Closed(s, 1).value);
    assert BindStep(s, 0) == Raw(1) && !BindStep(s, 1).Bad? && Meet(s, 1).None?;
  }

  lemma {:induction false} TrapIsNotRaw(end: nat)
    requires end > 4
    ensures !RawTo(TRAP, 1, end)
  {
    hide QuoteEnd, CommentEnd, LineEnd, Find;
    var s := TRAP;
    assert BindStep(s, 1) == Raw(2) && BindStep(s, 2) == Raw(3) && BindStep(s, 3) == Raw(4) && BindStep(s, 4).Site?;
    assert !RawTo(s, 4, end);
    assert !RawTo(s, 3, end);
  }

  lemma {:induction false} TrapSwallows()
    ensures CountFrom(TRAPPED, 0) == 0
  {
    hide QuoteEnd, CommentEnd, LineEnd;
    var t := TRAPPED;
    assert WordEnd(t, 2) == 3 && OpensTag(t, 1);
    assert t[1..4] == "$t$" && t[5..8] == "$t$" && t[4..7][0] == '?';
    assert Occurs(t, "$t$", 5) && !Occurs(t, "$t$", 4);
    assert Find(t, "$t$", 4) == Some(5);
    assert ReplaceStep(t, 1) == 8 && ReplaceStep(t, 0) == 1;
    assert CountFrom(t, 1) == CountFrom(t, 8) == 0;
  }

  /** Without the condition the scanners disagree: here the second one takes the site for quoted text. */
  lemma IdentifierTagSwallowsSite(literal: Value -> string)
    ensures var b := BindNamed(TRAP, [("x", 7)]);
      b == Bound(TRAPPED, [7], {"x"}) && !InStep(TRAP, 0) && BuildSql(b.sql, b.params, literal) == None
  {
    hide BindFrom, CountFrom, ReplaceFrom, InStep;
    var params := [("x", 7)];
    assert params[..0] == [];
    assert Values(params) == Some(map["x" := 7]);
    TrapBinds(map["x" := 7]);
    TrapOpens();
    TrapSwallows();
  }
}
