/**
  The other direction of `NamedParamsAgree`: a `$` inside an identifier that opens
  a dollar quote, closed later with a site in between, costs the placeholder
  scanner that site.
*/
module NamedParamsTrap {
  import opened Wrappers
  import opened SqlText
  import opened NamedParams
  import opened NamedParamsAgree

  /** The first site of the bind scan from i on that begins before `end`. */
  function SiteBefore(s: string, i: nat, end: nat): (r: Option<nat>)
    requires i <= |s|
    ensures r.Some? ==> i <= r.value < end && r.value < |s| && RawTo(s, i, r.value) && BindStep(s, r.value).Site?
    decreases |s| - i
  {
    if i >= end || i == |s| then None
    else
      match BindStep(s, i)
      case Bad => None
      case Site(_) => Some(i)
      case Raw(next) => SiteBefore(s, next, end)
  }

  /** A `$` at i, inside an identifier, opens a dollar quote with a site in it; the text has no `?` of its own from
      there on. */
  predicate Traps(s: string, i: nat) {
    && i < |s| && !HarmlessDollar(s, i) && SiteBefore(s, i, Closed(s, i).value).Some?
    && forall x :: i <= x < |s| ==> s[x] != '?'
  }

  /** Where the two scans part, if they do, it is at a trap. */
  predicate Decided(s: string, i: nat)
    requires i <= |s|
    decreases |s| - i
  {
    i == |s| || BindStep(s, i).Bad? ||
    if Meet(s, i).Some? then Decided(s, Meet(s, i).value) else Traps(s, i)
  }

  // --------------------------------------------------------- the closing tag

  /** Input without a `:` is output. */
  lemma {:induction false} PrefixForward(s: string, i: nat, values: map<string, Value>, t: string, m: nat, r: nat)
    requires Output(s, i, values, t, m) && i + r <= |s| && forall x :: i <= x < i + r ==> s[x] != ':'
    ensures Shift(s, i, i + r, t, m - i)
    decreases |s| - i
  {
    hide BindStep, BindFrom;
    if r > 0 {
      OutputStep(s, i, values, t, m);
      if BindStep(s, i).Raw? {
        RawOutput(s, i, values, t, m);
        var k := BindStep(s, i).next;
        if k < i + r { PrefixForward(s, k, values, t, m + (k - i), i + r - k); }
        forall x | i <= x < i + r ensures x + (m - i) < |t| && t[x + (m - i)] == s[x] { }
      } else {
        SiteOutput(s, i, values, t, m);
      }
    }
  }

  /** Like the tag of a dollar quote. */
  predicate TagLike(pat: string) { pat != "" && pat[0] == '$' && ':' !in pat && '?' !in pat }

  lemma {:induction false} OccursHolds(s: string, pat: string, y: nat)
    requires Occurs(s, pat, y)
    ensures forall x :: y <= x < y + |pat| ==> s[x] in pat
  {
    forall x | y <= x < y + |pat| ensures s[x] in pat { assert s[x] == s[y..y + |pat|][x - y]; }
  }

  lemma {:induction false} SiteIsName(s: string, i: nat)
    requires i < |s| && BindStep(s, i).Site?
    ensures s[i] == ':' && forall x :: i < x < BindStep(s, i).next ==> Next(s[x])
  {
    hide QuoteEnd, CommentEnd, LineEnd, Find;
  }

  /** A tag that occurs in the input occurs in the output. */
  lemma {:induction false} OccursForward(
    s: string, i: nat, values: map<string, Value>, t: string, m: nat, pat: string, y: nat) returns (x: nat)
    requires Output(s, i, values, t, m) && i <= y && Occurs(s, pat, y) && TagLike(pat)
    ensures m <= x && Occurs(t, pat, x)
    decreases |s| - i
  {
    hide BindStep, BindFrom;
    assert s[y] == s[y..y + |pat|][0] == pat[0];
    OutputStep(s, i, values, t, m);
    var k := BindStep(s, i).next;
    if BindStep(s, i).Site? {
      SiteOutput(s, i, values, t, m);
      SiteIsName(s, i);
      x := OccursForward(s, k, values, t, m + 1, pat, y);
    } else {
      RawOutput(s, i, values, t, m);
      if y >= k {
        x := OccursForward(s, k, values, t, m + (k - i), pat, y);
      } else {
        x := y + (m - i);
        OccursAhead(s, i, values, t, m, pat, y);
      }
    }
  }

  /** The same for an occurrence that begins inside the next piece. */
  lemma {:induction false} OccursAhead(
    s: string, i: nat, values: map<string, Value>, t: string, m: nat, pat: string, y: nat)
    requires i < |s| && Output(s, i, values, t, m) && BindStep(s, i).Raw? && i <= y < BindStep(s, i).next
    requires Occurs(s, pat, y) && TagLike(pat)
    ensures Occurs(t, pat, y + (m - i))
  {
    hide BindStep, BindFrom;
    RawOutput(s, i, values, t, m);
    var k, end := BindStep(s, i).next, y + |pat|;
    OccursHolds(s, pat, y);
    if k < end { PrefixForward(s, k, values, t, m + (k - i), end - k); }
    forall z | y <= z < end ensures z + (m - i) < |t| && t[z + (m - i)] == s[z] { }
    assert Shift(s, y, end, t, m - i);
    OccursLocal(s, pat, y, y, end, t, m - i);
  }

  lemma {:induction false} TagIsTagLike(s: string, i: nat)
    requires i < |s| && s[i] == '$' && OpensTag(s, i)
    ensures TagLike(Tag(s, i))
  {
    hide WordEnd;
    var tag := Tag(s, i);
    forall x | 0 <= x < |tag| ensures tag[x] != '?' && tag[x] != ':' { assert tag[x] == s[i + x]; }
  }

  /** A site before the end of the quote is behind its opening tag and before its closing one. */
  lemma {:induction false} SiteIsBetween(s: string, i: nat, j: nat)
    requires i < |s| && s[i] == '$' && OpensTag(s, i) && Closed(s, i).Some?
    requires i <= j < Closed(s, i).value && s[j] == ':'
    ensures i + |Tag(s, i)| <= j < Closed(s, i).value - |Tag(s, i)|
    ensures Occurs(s, Tag(s, i), Closed(s, i).value - |Tag(s, i)|)
    ensures forall y :: WordEnd(s, i + 1) < y < j ==> !Occurs(s, Tag(s, i), y)
  {
    hide WordEnd;
    var tag := Tag(s, i);
    TagIsTagLike(s, i);
    OccursHolds(s, tag, i);
    OccursHolds(s, tag, Closed(s, i).value - |tag|);
  }

  /** The placeholder scanner steps from the tag over the site. */
  lemma {:induction false} TagSwallows(s: string, i: nat, values: map<string, Value>, t: string, m: nat, j: nat)
    requires i < |s| && Output(s, i, values, t, m) && s[i] == '$' && OpensTag(s, i) && Closed(s, i).Some?
    requires j < Closed(s, i).value && RawTo(s, i, j) && BindStep(s, j).Site?
    ensures var n := m + (j - i); m <= n < |t| && t[m] == '$' && t[n] == '?' && n < ReplaceStep(t, m)
  {
    hide BindStep, BindFrom, ReplaceStep, Find, WordEnd, Occurs, Closed, RawTo;
    var d, e, tag := m - i, WordEnd(s, i + 1), Tag(s, i);
    RawRun(s, i, values, t, m, j);
    var n := j + d;
    SiteOutput(s, j, values, t, n);
    SiteIsBetween(s, i, j);
    TagIsTagLike(s, i);
    if i + 1 < e { assert Next(s[i + 1]); }
    TagLocal(s, i, e, t, d);
    var x := OccursForward(s, j, values, t, n, tag, Closed(s, i).value - |tag|);
    var close := Find(t, tag, e + d + 1).value;
    DollarStep(t, m, e + d, tag, close);
    CloseIsBehind(s, i, t, d, tag, e + 1, j, close);
  }

  lemma {:induction false} CloseIsBehind(
    s: string, i: nat, t: string, d: int, tag: string, from: nat, j: nat, z: nat)
    requires Shift(s, i, j, t, d) && i <= from <= j && 0 <= i + d && j + d < |t| && t[j + d] == '?'
    requires tag != "" && '?' !in tag && (forall y :: from <= y < j ==> !Occurs(s, tag, y))
    requires from + d <= z && Occurs(t, tag, z)
    ensures j + d < z
  {
    OccursHolds(t, tag, z);
    if z + |tag| <= j + d { OccursLocal(s, tag, z - d, i, j, t, d); }
  }

  // ---------------------------------------------------------------- counting

  function Marks(t: string, m: nat): nat
    requires m <= |t|
    decreases |t| - m
  {
    if m == |t| then 0 else (if t[m] == '?' then 1 else 0) + Marks(t, m + 1)
  }

  lemma {:induction false} FewerMarks(t: string, m: nat, n: nat)
    requires m <= n <= |t|
    ensures Marks(t, n) <= Marks(t, m)
    ensures (forall x :: m <= x < n ==> t[x] != '?') ==> Marks(t, n) == Marks(t, m)
    decreases n - m
  {
    if m < n { FewerMarks(t, m + 1, n); }
  }

  lemma {:induction false} FindsNoMore(t: string, m: nat)
    requires m <= |t|
    ensures CountFrom(t, m) <= Marks(t, m)
    decreases |t| - m
  {
    hide ReplaceStep;
    if m < |t| {
      if t[m] == '?' { FindsNoMore(t, m + 1); } else {
        FewerMarks(t, m, ReplaceStep(t, m));
        FindsNoMore(t, ReplaceStep(t, m));
      }
    }
  }

  /** Without a `?` of its own the text is left with as many as there are values. */
  lemma {:induction false} MarksAreSites(s: string, i: nat, values: map<string, Value>, t: string, m: nat)
    requires Output(s, i, values, t, m) && forall x :: i <= x < |s| ==> s[x] != '?'
    ensures Marks(t, m) == |BindFrom(s, i, values).params|
    decreases |s| - i
  {
    hide BindStep, BindFrom;
    if i == |s| {
      OutputEnd(s, values, t, m);
    } else {
      OutputStep(s, i, values, t, m);
      var k := BindStep(s, i).next;
      if BindStep(s, i).Raw? {
        RawOutput(s, i, values, t, m);
        var n := m + (k - i);
        forall x | m <= x < n ensures t[x] != '?' { ShiftBack(s, i, k, t, m - i, x); }
        FewerMarks(t, m, n);
        MarksAreSites(s, k, values, t, n);
      } else {
        SiteOutput(s, i, values, t, m);
        MarksAreSites(s, k, values, t, m + 1);
      }
    }
  }

  /** From a trap on the scanner finds too few placeholders. */
  lemma {:induction false} TrapLoses(s: string, i: nat, values: map<string, Value>, t: string, m: nat)
    requires Output(s, i, values, t, m) && Traps(s, i)
    ensures CountFrom(t, m) < |BindFrom(s, i, values).params|
  {
    hide BindFrom, BindStep, ReplaceStep, SiteBefore, Closed, OpensTag, RawTo;
    var j := SiteBefore(s, i, Closed(s, i).value).value;
    TagSwallows(s, i, values, t, m, j);
    MarksAreSites(s, i, values, t, m);
    var n, next := m + (j - i), ReplaceStep(t, m);
    FindsNoMore(t, next);
    FewerMarks(t, m, n);
    FewerMarks(t, n + 1, next);
  }

  /** Scans that part at a trap: there are fewer placeholders than values. */
  lemma {:induction false} TooFew(s: string, i: nat, values: map<string, Value>, t: string, m: nat)
    requires Output(s, i, values, t, m) && Preceded(s, i, t, m) && Decided(s, i) && !InStep(s, i)
    ensures CountFrom(t, m) < |BindFrom(s, i, values).params|
    decreases |s| - i
  {
    hide BindStep, ReplaceStep, BindFrom, ReplaceFrom, CountFrom, Preceded, Shift, Copies, RawTo, Traps, OpensTag;
    OutputStep(s, i, values, t, m);
    if Meet(s, i).None? {
      TrapLoses(s, i, values, t, m);
    } else {
      var k := Meet(s, i).value;
      if BindStep(s, i).Raw? {
        RawMeets(s, i, values, t, m);
        UseCopies(t, m, m + (k - i), s[i..k], 0, _ => "");
        TooFew(s, k, values, t, m + (k - i));
      } else {
        SiteOutput(s, i, values, t, m);
        SitePreceded(s, i, values, t, m);
        SiteTo(t, m, 0, _ => "");
        TooFew(s, k, values, t, m + 1);
      }
    }
  }

  /** After a successful bind, building reports a mismatch exactly when the scans part, and otherwise yields the text
      with every name replaced by its literal: for every text whose scans, if they part, do so at a trap. */
  lemma {:induction false} BuildsIff(s: string, params: seq<(string, Value)>, literal: Value -> string)
    requires BindNamed(s, params).Bound? && Decided(s, 0)
    ensures var b := BindNamed(s, params); var values := Values(params).value;
      var built := BuildSql(b.sql, b.params, literal);
      && (built == None <==> !InStep(s, 0))
      && (built == Some(Inline(s, 0, name => if name in values then literal(values[name]) else "")) <==> InStep(s, 0))
  {
    hide BindFrom, CountFrom, ReplaceFrom, Decided, InStep, Inline;
    if InStep(s, 0) {
      BindThenBuild(s, params, literal);
    } else {
      var b := BindNamed(s, params);
      assert b.sql[0..] == b.sql;
      TooFew(s, 0, Values(params).value, b.sql, 0);
    }
  }
}
