/**
  The lexical pieces both SQL scanners of the library share: quoted text,
  comments, Oracle alternative quotes and PostgreSQL dollar quotes. Every
  function takes a text and a position and says where the piece ends.
  Character classes are those of the C locale.
*/
module SqlText {
  import opened Wrappers

  predicate First(c: char) { 'a' <= c <= 'z' || 'A' <= c <= 'Z' || c == '_' }

  predicate Digit(c: char) { '0' <= c <= '9' }

  /** Identifier characters: letters, digits and underscore. */
  predicate Next(c: char) { First(c) || Digit(c) }

  predicate At(s: string, i: nat, c: char) { i < |s| && s[i] == c }

  predicate At2(s: string, i: nat, c: char, d: char) { At(s, i, c) && At(s, i + 1, d) }

  /** End of quoted text whose opening quote is before i; a doubled quote and, if `escapes`, a backslash pair do not
      close it. */
  function QuoteEnd(s: string, i: nat, close: char, escapes: bool): (r: Option<nat>)
    ensures r.Some? ==> i < r.value <= |s|
    decreases |s| - i
  {
    if i >= |s| then None
    else if s[i] == '\\' && escapes && i + 1 < |s| then QuoteEnd(s, i + 2, close, escapes)
    else if s[i] == close then
      if At(s, i + 1, close) then QuoteEnd(s, i + 2, close, escapes) else Some(i + 1)
    else QuoteEnd(s, i + 1, close, escapes)
  }

  /** First newline at or after i, or the end of the text. */
  function LineEnd(s: string, i: nat): (r: nat)
    requires i <= |s|
    ensures i <= r <= |s| && (r < |s| ==> s[r] == '\n')
    decreases |s| - i
  {
    if i == |s| || s[i] == '\n' then i else LineEnd(s, i + 1)
  }

  /** End of a block comment nested to `depth` at i. */
  function CommentEnd(s: string, i: nat, depth: nat): (r: Option<nat>)
    requires i <= |s|
    ensures r.Some? ==> i <= r.value <= |s| && (depth > 0 ==> i + 2 <= r.value)
    decreases |s| - i
  {
    if depth == 0 then Some(i)
    else if i >= |s| then None
    else if At2(s, i, '/', '*') then CommentEnd(s, i + 2, depth + 1)
    else if At2(s, i, '*', '/') then CommentEnd(s, i + 2, depth - 1)
    else CommentEnd(s, i + 1, depth)
  }

  predicate Occurs(s: string, pat: string, i: nat) { i + |pat| <= |s| && s[i..i + |pat|] == pat }

  /** First occurrence of `pat` at or after i. */
  function Find(s: string, pat: string, i: nat): (r: Option<nat>)
    ensures r.Some? ==> i <= r.value && Occurs(s, pat, r.value) && forall k :: i <= k < r.value ==> !Occurs(s, pat, k)
    ensures r.None? ==> forall k :: i <= k ==> !Occurs(s, pat, k)
    decreases if i <= |s| then |s| - i + 1 else 0
  {
    if i > |s| then None
    else if Occurs(s, pat, i) then Some(i)
    else Find(s, pat, i + 1)
  }

  /** First position at or after i that is not an identifier character. */
  function WordEnd(s: string, i: nat): (r: nat)
    requires i <= |s|
    ensures i <= r <= |s| && (r < |s| ==> !Next(s[r]))
    ensures forall k :: i <= k < r ==> Next(s[k])
    decreases |s| - i
  {
    if i == |s| || !Next(s[i]) then i else WordEnd(s, i + 1)
  }

  function Closer(open: char): char {
    if open == '[' then ']'
    else if open == '(' then ')'
    else if open == '{' then '}'
    else if open == '<' then '>'
    else open
  }

  // --------------------------------------------------------------- loops

  method FindQuoteEnd(s: string, start: nat, close: char, escapes: bool) returns (r: Option<nat>)
    ensures r == QuoteEnd(s, start, close, escapes)
  {
    var i := start;
    while i < |s|
      invariant QuoteEnd(s, start, close, escapes) == QuoteEnd(s, i, close, escapes)
      decreases |s| - i
    {
      if s[i] == '\\' && escapes && i + 1 < |s| {
        i := i + 2;
        continue;
      }
      if s[i] == close {
        if i + 1 < |s| && s[i + 1] == close {
          i := i + 2;
          continue;
        }
        return Some(i + 1);
      }
      i := i + 1;
    }
    return None;
  }

  method FindLineEnd(s: string, start: nat) returns (r: nat)
    requires start <= |s|
    ensures r == LineEnd(s, start)
  {
    r := start;
    while r < |s| && s[r] != '\n'
      invariant start <= r <= |s| && LineEnd(s, start) == LineEnd(s, r)
    {
      r := r + 1;
    }
  }

  method FindCommentEnd(s: string, start: nat) returns (r: Option<nat>)
    requires start <= |s|
    ensures r == CommentEnd(s, start, 1)
  {
    var i, depth := start, 1;
    while i < |s| && depth > 0
      invariant start <= i <= |s| && 0 <= depth
      invariant CommentEnd(s, start, 1) == CommentEnd(s, i, depth)
      decreases |s| - i
    {
      if s[i] == '/' && i + 1 < |s| && s[i + 1] == '*' {
        depth, i := depth + 1, i + 2;
      } else if s[i] == '*' && i + 1 < |s| && s[i + 1] == '/' {
        depth, i := depth - 1, i + 2;
      } else {
        i := i + 1;
      }
    }
    return if depth > 0 then None else Some(i);
  }

  method FindText(s: string, pat: string, start: nat) returns (r: Option<nat>)
    ensures r == Find(s, pat, start)
  {
    var i := start;
    while i + |pat| <= |s|
      invariant Find(s, pat, start) == Find(s, pat, i)
      decreases |s| + 1 - i
    {
      if s[i..i + |pat|] == pat { return Some(i); }
      i := i + 1;
    }
    assert forall k :: i <= k ==> !Occurs(s, pat, k);
    return None;
  }

  method FindWordEnd(s: string, start: nat) returns (r: nat)
    requires start <= |s|
    ensures r == WordEnd(s, start)
  {
    r := start;
    while r < |s| && Next(s[r])
      invariant start <= r <= |s| && WordEnd(s, start) == WordEnd(s, r)
    {
      r := r + 1;
    }
  }
}
