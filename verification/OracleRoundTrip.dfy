/** Exactly when Oracle's `RETURNING … INTO …` suffix is found again behind a base statement. */
module OracleRoundTrip {
  import opened Wrappers
  import opened OracleReturning
  import T = SqlText
  import S = Slices

  /** Position `i` of `s` is outside quotes or the end. */
  predicate Outside(s: string, i: nat) { i <= |s| && (i == |s| || Mode(s, i) == ' ') }

  // ------------------------------------------------ the parser keeps track of the quotes

  lemma {:induction false} SkipMode(s: string, i: nat, q: char)
    requires i <= |s| && IsQuote(q) && Mode(s, i) == q
    ensures Outside(s, SkipQuoted(s, i, q))
    decreases |s| - i
  {
    if i < |s| {
      assert Mode(s, i + 1) == if s[i] == q then ' ' else q;
      if s[i] != q {
        SkipMode(s, i + 1, q);
      } else if i + 1 < |s| && s[i + 1] == q {
        assert Mode(s, i + 2) == q;
        SkipMode(s, i + 2, q);
      }
    }
  }

  lemma {:induction false} PlainMode(s: string, i: nat)
    requires i < |s| && Mode(s, i) == ' ' && !IsQuote(s[i])
    ensures Mode(s, i + 1) == ' '
  {
  }

  lemma {:induction false} WordMode(s: string, i: nat)
    requires i <= |s| && Mode(s, i) == ' '
    ensures Mode(s, WordEnd(s, i)) == ' '
    decreases |s| - i
  {
    hide Mode;
    if i < |s| && WordChar(s[i]) {
      PlainMode(s, i);
      WordMode(s, i + 1);
    }
  }

  lemma {:induction false} SpaceMode(s: string, i: nat)
    requires i <= |s| && Mode(s, i) == ' '
    ensures Mode(s, SkipSpaces(s, i)) == ' '
    decreases |s| - i
  {
    hide Mode;
    if i < |s| && Space(s[i]) {
      PlainMode(s, i);
      SpaceMode(s, i + 1);
    }
  }

  lemma {:induction false} NumberMode(s: string, i: nat, n: nat)
    requires i <= |s| && Mode(s, i) == ' '
    ensures Mode(s, ReadNumber(s, i, n).next) == ' '
    decreases |s| - i
  {
    hide Mode;
    if i < |s| && T.Digit(s[i]) {
      PlainMode(s, i);
      NumberMode(s, i + 1, (n * 10 + (s[i] as int - '0' as int)) % WORD);
    }
  }

  /** `k` is no keyword, or the end of the keyword is outside quotes. */
  predicate Clear(s: string, k: Option<nat>) { k.Some? ==> k.value + 9 <= |s| && Mode(s, k.value + 9) == ' ' }

  /** The keyword that is found is outside quotes. */
  lemma {:induction false} KeywordMode(s: string, i: nat, found: Option<nat>)
    requires Outside(s, i) && Clear(s, found)
    ensures Clear(s, FindKeyword(s, i, found))
    decreases |s| - i
  {
    hide Mode, WordEnd, SkipQuoted;
    if i == |s| {
    } else if IsQuote(s[i]) {
      OpenMode(s, i);
      SkipMode(s, i + 1, s[i]);
      KeywordMode(s, SkipQuoted(s, i + 1, s[i]), found);
    } else if Letter(s[i]) {
      WordMode(s, i);
      var next := if FoldEquals(s[i..WordEnd(s, i)], "RETURNING") then Some(i) else found;
      KeywordMode(s, WordEnd(s, i), next);
    } else {
      PlainMode(s, i);
      KeywordMode(s, i + 1, found);
    }
  }

  lemma {:induction false} OpenMode(s: string, i: nat)
    requires i < |s| && Mode(s, i) == ' ' && IsQuote(s[i])
    ensures Mode(s, i + 1) == s[i]
  {
  }

  lemma {:induction false} QuotedMode(s: string, p: nat, name: string)
    requires p <= |s| && Mode(s, p) == '"'
    ensures Outside(s, ReadQuoted(s, p, name).next)
    decreases |s| - p
  {
    if p < |s| {
      assert Mode(s, p + 1) == if s[p] == '"' then ' ' else '"';
      if s[p] != '"' {
        QuotedMode(s, p + 1, name + [s[p]]);
      } else if p + 1 < |s| && s[p + 1] == '"' {
        assert Mode(s, p + 2) == '"';
        QuotedMode(s, p + 2, name + ['"']);
      }
    }
  }

  lemma {:induction false} NameMode(s: string, p: nat)
    requires p < |s| && Mode(s, p) == ' ' && ReadName(s, p).Some?
    ensures Outside(s, ReadName(s, p).value.next)
  {
    hide Mode, ReadQuoted, WordEnd;
    if s[p] == '"' {
      OpenMode(s, p);
      QuotedMode(s, p + 1, "");
    } else {
      WordMode(s, p);
    }
  }

  lemma {:induction false} SkipsOutside(s: string, p: nat)
    requires Outside(s, p)
    ensures Outside(s, SkipSpaces(s, p))
  {
    hide Mode;
    if p < |s| { SpaceMode(s, p); }
  }

  lemma {:induction false} ColumnsMode(s: string, p: nat, columns: seq<string>)
    requires Outside(s, p) && ReadColumns(s, p, columns).Some?
    ensures Outside(s, ReadColumns(s, p, columns).value.next)
    decreases |s| - p
  {
    hide Mode, ReadName, SkipSpaces;
    if p < |s| {
      SkipsOutside(s, p);
      var q := SkipSpaces(s, p);
      NameMode(s, q);
      var name := ReadName(s, q).value;
      SkipsOutside(s, name.next);
      var next := SkipSpaces(s, name.next);
      if next < |s| && s[next] == ',' {
        PlainMode(s, next);
        ColumnsMode(s, next + 1, columns + [name.value]);
      }
    }
  }

  /** The binds reach the end of the text without a quote. */
  lemma {:induction false} BindsMode(s: string, p: nat, binds: seq<nat>)
    requires p <= |s| && Mode(s, p) == ' ' && ReadBinds(s, p, binds).Some?
    ensures Closed(s)
    decreases |s| - p
  {
    hide Mode, SkipSpaces, ReadNumber;
    if p < |s| {
      SpaceMode(s, p);
      var q := SkipSpaces(s, p);
      if q < |s| {
        PlainMode(s, q);
        if s[q] == ',' {
          BindsMode(s, q + 1, binds);
        } else {
          NumberMode(s, q + 1, 0);
          var n := ReadNumber(s, q + 1, 0);
          BindsMode(s, n.next, binds + [n.value]);
        }
      }
    }
  }

  /** A text in which the parser finds the suffix has all its quotes closed. */
  lemma {:induction false} ParsedIsClosed(s: string)
    requires Parse(s).Some?
    ensures Closed(s)
  {
    hide Mode, FindKeyword, ReadColumns, ReadBinds, SkipSpaces, WordEnd;
    assert Mode(s, 0) == ' ' by { StartMode(s); }
    KeywordMode(s, 0, None);
    var p := FindKeyword(s, 0, None).value + 9;
    ColumnsMode(s, p, []);
    var next := ReadColumns(s, p, []).value.next;
    SkipsOutside(s, next);
    var q := SkipSpaces(s, next);
    assert q < |s|;
    WordMode(s, q);
    BindsMode(s, WordEnd(s, q), []);
  }

  lemma {:induction false} StartMode(s: string)
    ensures Mode(s, 0) == ' '
  {
  }

  // ------------------------------------------------------------ both directions

  /** A character takes different modes to different modes. */
  lemma {:induction false} ModesStayApart(a: string, i: nat, b: string, j: nat)
    requires i < |a| && j < |b| && a[i] == b[j] && Mode(a, i + 1) == Mode(b, j + 1)
    ensures Mode(a, i) == Mode(b, j)
  {
    ModeIs(a, i);
    ModeIs(b, j);
  }

  lemma {:induction false} ModeIs(s: string, i: nat)
    requires i <= |s|
    ensures Mode(s, i) == ' ' || IsQuote(Mode(s, i))
  {
    if i > 0 { ModeIs(s, i - 1); }
  }

  lemma {:induction false} SameStart(base: string, x: string, j: nat)
    requires j <= |x| && Mode(base + x, |base| + j) == Mode(x, j)
    ensures Mode(base + x, |base|) == ' '
  {
    hide Mode;
    if j == 0 {
      StartMode(x);
    } else {
      ModesStayApart(base + x, |base| + j - 1, x, j - 1);
      SameStart(base, x, j - 1);
    }
  }

  lemma {:induction false} PrefixMode(base: string, x: string, i: nat)
    requires i <= |base|
    ensures Mode(base + x, i) == Mode(base, i)
  {
    if i > 0 { PrefixMode(base, x, i - 1); }
  }

  /** A suffix is found behind a base exactly when the quotes of the base are closed, and otherwise nothing is. */
  lemma {:induction false} RoundTripIff(base: string, columns: seq<string>, first: nat)
    requires columns != [] && first < WORD
    ensures var r := Parse(base + Suffix(columns, first));
      && (r == Some(Returning(columns, |columns|, first)) <==> Closed(base))
      && (r == None <==> !Closed(base))
  {
    hide Parse, Suffix, Mode;
    var x := Suffix(columns, first);
    if Closed(base) {
      RoundTrip(base, columns, first);
    } else if Parse(base + x).Some? {
      ParsedIsClosed(base + x);
      StartMode("");
      RoundTrip("", columns, first);
      assert "" + x == x;
      ParsedIsClosed(x);
      SameStart(base, x, |x|);
      PrefixMode(base, x, |base|);
    }
  }

  /** A base with an apostrophe in a comment: its suffix is not found. */
  lemma {:induction false} ApostropheInComment()
    ensures var s := "/* it's */ DELETE FROM t"; !Closed(s) && Parse(s + Suffix(["id"], 1)) == None
  {
    hide Parse, Suffix;
    var s := "/* it's */ DELETE FROM t";
    assert Mode(s, 5) == ' ' by { assert Mode(s, 3) == ' '; }
    StaysOpen(s, 6);
    RoundTripIff(s, ["id"], 1);
  }

  lemma {:induction false} StaysOpen(s: string, i: nat)
    requires i <= |s| && IsQuote(Mode(s, i)) && forall k :: i <= k < |s| ==> !IsQuote(s[k])
    ensures !Closed(s)
    decreases |s| - i
  {
    if i < |s| {
      assert Mode(s, i + 1) == Mode(s, i);
      StaysOpen(s, i + 1);
    }
  }

  // ------------------------------------------------------- texts written by hand

  /** What is found has columns, and as many binds. */
  lemma {:induction false} ParsedIsPaired(s: string)
    requires Parse(s).Some?
    ensures Parse(s).value.columns != [] && Parse(s).value.bindCount == |Parse(s).value.columns|
  {
    hide FindKeyword, ReadColumns, ReadBinds, SkipSpaces, WordEnd;
  }

  /** A name without quotes reads up to its end, in upper case, as the database stores it. */
  lemma {:induction false} BareName(s: string, p: nat, name: string)
    requires S.At(s, p, name) && name != "" && (forall c <- name :: WordChar(c))
    requires p + |name| < |s| ==> !WordChar(s[p + |name|])
    ensures p < |s| && ReadName(s, p).Some? && ReadName(s, p).value.next == p + |name|
    ensures var read := ReadName(s, p).value.value;
      |read| == |name| && forall k :: 0 <= k < |name| ==>
        read[k] == if 'a' <= name[k] <= 'z' then (name[k] as int - 'a' as int + 'A' as int) as char else name[k]
  {
    hide WordEnd;
    S.AtFirst(s, p, name);
    assert name[0] in name;
    BareEnd(s, p, name);
    S.AtIs(s, p, name);
  }

  lemma {:induction false} BareEnd(s: string, p: nat, name: string)
    requires S.At(s, p, name) && (forall c <- name :: WordChar(c))
    requires p + |name| < |s| ==> !WordChar(s[p + |name|])
    ensures p <= |s| && WordEnd(s, p) == p + |name|
    decreases |name|
  {
    if name != "" {
      assert name == [name[0]] + name[1..] && name[0] in name;
      S.AtSplit(s, p, [name[0]], name[1..]);
      S.AtFirst(s, p, name);
      BareEnd(s, p + 1, name[1..]);
    }
  }
}
