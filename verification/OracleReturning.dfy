/**
  Oracle's `RETURNING … INTO …` suffix: the printer, and the parser that finds
  it again at the end of any statement.
*/
module OracleReturning {
  import opened Wrappers
  import opened Slices
  import T = SqlText

  predicate Letter(c: char) { 'a' <= c <= 'z' || 'A' <= c <= 'Z' }

  predicate WordChar(c: char) { Letter(c) || T.Digit(c) || c == '_' || c == '$' || c == '#' }

  predicate Space(c: char) { c == ' ' || ('\t' <= c <= '\r') }

  predicate IsQuote(c: char) { c == '\'' || c == '"' }

  function Upper(c: char): char { if 'a' <= c <= 'z' then (c as int - 32) as char else c }

  predicate FoldEquals(a: string, b: string) { |a| == |b| && forall i :: 0 <= i < |a| ==> Upper(a[i]) == Upper(b[i]) }

  // ----------------------------------------------------------------- printer

  function Doubled(s: string): string {
    if s == "" then "" else (if s[0] == '"' then ['"', '"'] else [s[0]]) + Doubled(s[1..])
  }

  function QuoteIdentifier(s: string): string { ['"'] + Doubled(s) + ['"'] }

  function Names(columns: seq<string>): string
    requires columns != []
  {
    QuoteIdentifier(columns[0]) + if |columns| == 1 then "" else ", " + Names(columns[1..])
  }

  /** size_t arithmetic wraps. */
  const WORD: int := 0x1_0000_0000_0000_0000

  function DigitChar(d: int): char
    requires 0 <= d <= 9
  {
    ('0' as int + d) as char
  }

  function Decimal(n: nat): string {
    if n < 10 then [DigitChar(n)] else Decimal(n / 10) + [DigitChar(n % 10)]
  }

  function Binds(first: nat, count: nat): string
    requires count > 0
    decreases count
  {
    [':'] + Decimal(first % WORD) + if count == 1 then "" else ", " + Binds(first + 1, count - 1)
  }

  /** oracleMakeReturningSuffix. */
  function Suffix(columns: seq<string>, first: nat): string {
    if columns == [] then "" else " RETURNING " + Names(columns) + " INTO " + Binds(first, |columns|)
  }

  // ------------------------------------------------------------------ parser

  /** Past the closing quote, or the end of the text when there is none. */
  function SkipQuoted(s: string, i: nat, q: char): (r: nat)
    requires i <= |s|
    ensures i <= r <= |s|
  {
    var end := T.QuoteEnd(s, i, q, false);
    if end.Some? then end.value else |s|
  }

  function WordEnd(s: string, i: nat): (r: nat)
    requires i <= |s|
    ensures i <= r <= |s| && (forall k :: i <= k < r ==> WordChar(s[k])) && (r < |s| ==> !WordChar(s[r]))
    decreases |s| - i
  {
    if i == |s| || !WordChar(s[i]) then i else WordEnd(s, i + 1)
  }

  function SkipSpaces(s: string, i: nat): (r: nat)
    requires i <= |s|
    ensures i <= r <= |s|
    decreases |s| - i
  {
    if i < |s| && Space(s[i]) then SkipSpaces(s, i + 1) else i
  }

  /** Start of the last word RETURNING outside quotes. */
  function FindKeyword(s: string, i: nat, found: Option<nat>): (r: Option<nat>)
    requires i <= |s|
    ensures r.Some? && (found.Some? ==> found.value + 9 <= |s|) ==> r.value + 9 <= |s|
    decreases |s| - i
  {
    if i == |s| then found
    else if IsQuote(s[i]) then FindKeyword(s, SkipQuoted(s, i + 1, s[i]), found)
    else if Letter(s[i]) then
      FindKeyword(s, WordEnd(s, i), if FoldEquals(s[i..WordEnd(s, i)], "RETURNING") then Some(i) else found)
    else FindKeyword(s, i + 1, found)
  }

  datatype Read<T> = Read(value: T, next: nat)

  function ReadQuoted(s: string, p: nat, name: string): (r: Read<string>)
    requires p <= |s|
    ensures p <= r.next <= |s|
    decreases |s| - p
  {
    if p == |s| then Read(name, p)
    else if s[p] != '"' then ReadQuoted(s, p + 1, name + [s[p]])
    else if p + 1 < |s| && s[p + 1] == '"' then ReadQuoted(s, p + 2, name + ['"'])
    else Read(name, p + 1)
  }

  function UpperAll(s: string): string { seq(|s|, i requires 0 <= i < |s| => Upper(s[i])) }

  /** One column name at `p`. */
  function ReadName(s: string, p: nat): (r: Option<Read<string>>)
    requires p < |s|
    ensures r.Some? ==> p < r.value.next <= |s|
  {
    if s[p] == '"' then Some(ReadQuoted(s, p + 1, ""))
    else if !WordChar(s[p]) then None
    else Some(Read(UpperAll(s[p..WordEnd(s, p)]), WordEnd(s, p)))
  }

  function ReadColumns(s: string, p: nat, columns: seq<string>): (r: Option<Read<seq<string>>>)
    requires p <= |s|
    ensures r.Some? ==> p <= r.value.next <= |s|
    decreases |s| - p
  {
    if p == |s| then Some(Read(columns, p)) else
    var q := SkipSpaces(s, p);
    if q == |s| then None else
    var name := ReadName(s, q);
    if name.None? then None else
    var next := SkipSpaces(s, name.value.next);
    if next < |s| && s[next] == ',' then ReadColumns(s, next + 1, columns + [name.value.value])
    else Some(Read(columns + [name.value.value], next))
  }

  function ReadNumber(s: string, p: nat, n: nat): (r: Read<nat>)
    requires p <= |s|
    ensures p <= r.next <= |s|
    decreases |s| - p
  {
    if p == |s| || !T.Digit(s[p]) then Read(n, p)
    else ReadNumber(s, p + 1, (n * 10 + (s[p] as int - '0' as int)) % WORD)
  }

  function ReadBinds(s: string, p: nat, binds: seq<nat>): Option<seq<nat>>
    requires p <= |s|
    decreases |s| - p
  {
    if p == |s| then Some(binds) else
    var q := SkipSpaces(s, p);
    if q == |s| then Some(binds)
    else if s[q] == ',' then ReadBinds(s, q + 1, binds)
    else if s[q] != ':' then None
    else
      var n := ReadNumber(s, q + 1, 0);
      ReadBinds(s, n.next, binds + [n.value])
  }

  datatype Returning = Returning(columns: seq<string>, bindCount: nat, firstBind: nat)

  /** What stands after the keyword. */
  function ParseTail(s: string, p: nat): Option<Returning>
    requires p <= |s|
  {
    var columns := ReadColumns(s, p, []);
    if columns.None? || columns.value.value == [] then None else
    var q := SkipSpaces(s, columns.value.next);
    var end := WordEnd(s, q);
    if !FoldEquals(s[q..end], "INTO") then None else
    var binds := ReadBinds(s, end, []);
    if binds.None? || |binds.value| != |columns.value.value| then None
    else Some(Returning(columns.value.value, |binds.value|, binds.value[0]))
  }

  /** oracleParseReturningInto. */
  function Parse(s: string): Option<Returning> {
    var keyword := FindKeyword(s, 0, None);
    if keyword.None? then None else ParseTail(s, keyword.value + 9)
  }

  // ------------------------------------------------- outside quotes, by toggling

  /** The open quote after `s[..i]` has been read, a blank when none: each quote character toggles its own kind. */
  function Mode(s: string, i: nat): char
    requires i <= |s|
  {
    if i == 0 then ' ' else
    var m := Mode(s, i - 1);
    if m == ' ' then (if IsQuote(s[i - 1]) then s[i - 1] else ' ')
    else if s[i - 1] == m then ' ' else m
  }

  /** The quotes of a base statement are all closed. */
  predicate Closed(base: string) { Mode(base, |base|) == ' ' }

  /** `base` is followed in `s` by something that is neither a quote nor part of a word. */
  ghost predicate Followed(s: string, base: string) {
    |base| < |s| && s[..|base|] == base && !IsQuote(s[|base|]) && !WordChar(s[|base|])
  }

  lemma {:induction false} SkipWithin(s: string, base: string, i: nat, q: char)
    requires Followed(s, base) && Closed(base) && i <= |base| && IsQuote(q) && Mode(base, i) == q
    ensures SkipQuoted(s, i, q) <= |base| && Mode(base, SkipQuoted(s, i, q)) == ' '
    ensures T.QuoteEnd(s, i, q, false).Some?
    decreases |base| - i
  {
    assert i < |base|;
    assert s[i] == s[..|base|][i] == base[i];
    if s[i] != q {
      assert Mode(base, i + 1) == q;
      SkipWithin(s, base, i + 1, q);
    } else {
      assert Mode(base, i + 1) == ' ';
      if i + 1 < |s| && s[i + 1] == q {
        assert i + 1 < |base|;
        assert s[i + 1] == s[..|base|][i + 1] == base[i + 1];
        assert Mode(base, i + 2) == q;
        SkipWithin(s, base, i + 2, q);
      }
    }
  }

  lemma {:induction false} WordWithin(s: string, base: string, i: nat)
    requires Followed(s, base) && i <= |base| && Mode(base, i) == ' '
    ensures WordEnd(s, i) <= |base| && Mode(base, WordEnd(s, i)) == ' '
    decreases |base| - i
  {
    if i < |base| && WordChar(s[i]) {
      assert s[i] == s[..|base|][i] == base[i];
      assert Mode(base, i + 1) == ' ';
      WordWithin(s, base, i + 1);
    }
  }

  /** The keyword scan passes over a closed base statement and stands right behind it. */
  lemma {:induction false} ScanBase(s: string, base: string, i: nat, found: Option<nat>) returns (found': Option<nat>)
    requires Followed(s, base) && Closed(base) && i <= |base| && Mode(base, i) == ' '
    ensures FindKeyword(s, i, found) == FindKeyword(s, |base|, found')
    decreases |base| - i
  {
    hide FoldEquals;
    if i == |base| { return found; }
    assert s[i] == s[..|base|][i] == base[i];
    if IsQuote(s[i]) {
      assert Mode(base, i + 1) == s[i];
      SkipWithin(s, base, i + 1, s[i]);
      found' := ScanBase(s, base, SkipQuoted(s, i + 1, s[i]), found);
    } else if Letter(s[i]) {
      WordWithin(s, base, i);
      var next := if FoldEquals(s[i..WordEnd(s, i)], "RETURNING") then Some(i) else found;
      found' := ScanBase(s, base, WordEnd(s, i), next);
    } else {
      assert Mode(base, i + 1) == ' ';
      found' := ScanBase(s, base, i + 1, found);
    }
  }

  // ------------------------------------------------------- reading the names

  lemma {:induction false} DoubledCons(s: string)
    requires s != ""
    ensures Doubled(s) == (if s[0] == '"' then ['"', '"'] else [s[0]]) + Doubled(s[1..])
  {
  }

  /** Reading a quoted name back, and skipping over it. */
  lemma {:induction false} QuotedName(s: string, p: nat, name: string, read: string)
    requires At(s, p, Doubled(name) + ['"'])
    requires var end := p + |Doubled(name)| + 1; end < |s| && s[end] != '"'
    ensures ReadQuoted(s, p, read) == Read(read + name, p + |Doubled(name)| + 1)
    ensures T.QuoteEnd(s, p, '"', false) == Some(p + |Doubled(name)| + 1)
    decreases |name|
  {
    if name == "" {
      assert Doubled(name) + ['"'] == ['"'];
      AtFirst(s, p, ['"']);
      assert read + name == read;
    } else {
      var rest := Doubled(name[1..]) + ['"'];
      var read' := read + [name[0]];
      assert read + name == read' + name[1..];
      DoubledCons(name);
      if name[0] == '"' {
        assert Doubled(name) + ['"'] == ['"', '"'] + rest;
        AtSplit(s, p, ['"', '"'], rest);
        AtIndex(s, p, ['"', '"'], 0);
        AtIndex(s, p, ['"', '"'], 1);
        QuotedName(s, p + 2, name[1..], read');
      } else {
        assert Doubled(name) + ['"'] == [name[0]] + rest;
        AtSplit(s, p, [name[0]], rest);
        AtFirst(s, p, [name[0]]);
        QuotedName(s, p + 1, name[1..], read');
      }
    }
  }

  /** A quoted identifier followed by `c` reads back, and the keyword scan steps over it. */
  lemma {:induction false} Identifier(s: string, p: nat, name: string, found: Option<nat>)
    requires At(s, p, QuoteIdentifier(name))
    requires var end := p + |QuoteIdentifier(name)|; end < |s| && s[end] != '"'
    ensures p < |s| && s[p] == '"'
    ensures ReadName(s, p) == Some(Read(name, p + |QuoteIdentifier(name)|))
    ensures FindKeyword(s, p, found) == FindKeyword(s, p + |QuoteIdentifier(name)|, found)
  {
    hide FindKeyword, Doubled;
    var rest := Doubled(name) + ['"'];
    assert QuoteIdentifier(name) == ['"'] + rest;
    AtSplit(s, p, ['"'], rest);
    AtFirst(s, p, ['"']);
    QuotedName(s, p + 1, name, "");
    assert "" + name == name;
    QuoteStep(s, p, found);
  }

  lemma {:induction false} QuoteStep(s: string, p: nat, found: Option<nat>)
    requires p < |s| && IsQuote(s[p])
    ensures FindKeyword(s, p, found) == FindKeyword(s, SkipQuoted(s, p + 1, s[p]), found)
  {
  }

  lemma {:induction false} PlainStep(s: string, p: nat, found: Option<nat>)
    requires p < |s| && !IsQuote(s[p]) && !Letter(s[p])
    ensures FindKeyword(s, p, found) == FindKeyword(s, p + 1, found)
  {
  }

  lemma {:induction false} WordStep(s: string, p: nat, word: string, found: Option<nat>)
    requires At(s, p, word + " ") && word != "" && Letter(word[0]) && forall c <- word :: WordChar(c)
    ensures WordEnd(s, p) == p + |word| && s[p..p + |word|] == word
    ensures FindKeyword(s, p, found)
      == FindKeyword(s, p + |word|, if FoldEquals(word, "RETURNING") then Some(p) else found)
  {
    AtSplit(s, p, word, " ");
    AtFirst(s, p, word);
    AtFirst(s, p + |word|, " ");
    AtIs(s, p, word);
    WordIs(s, p, word, 0);
  }

  lemma {:induction false} WordIs(s: string, p: nat, word: string, k: nat)
    requires At(s, p, word) && p + |word| < |s| && !WordChar(s[p + |word|]) && (forall c <- word :: WordChar(c))
      && k <= |word|
    ensures WordEnd(s, p + k) == p + |word|
    decreases |word| - k
  {
    if k < |word| {
      AtIndex(s, p, word, k);
      assert word[k] in word;
      WordIs(s, p, word, k + 1);
    }
  }

  lemma {:induction false} NamesSplit(s: string, p: nat, columns: seq<string>, end: nat)
    requires columns != [] && At(s, p, Names(columns)) && end == p + |Names(columns)| && end < |s| && s[end] == ' '
    ensures var q := p + |QuoteIdentifier(columns[0])|;
      && At(s, p, QuoteIdentifier(columns[0])) && q < |s| && s[q] != '"'
      && (|columns| == 1 ==> q == end)
      && (|columns| > 1 ==> q + 1 < |s| && s[q] == ',' && s[q + 1] == ' ' && At(s, q + 2, Names(columns[1..]))
                            && end == q + 2 + |Names(columns[1..])|)
  {
    hide QuoteIdentifier, At;
    var first := QuoteIdentifier(columns[0]);
    if |columns| == 1 {
      assert Names(columns) == first;
    } else {
      var rest := Names(columns[1..]);
      assert Names(columns) == first + (", " + rest);
      AtSplit(s, p, first, ", " + rest);
      AtSplit(s, p + |first|, ", ", rest);
      AtIndex(s, p + |first|, ", ", 0);
      AtIndex(s, p + |first|, ", ", 1);
    }
  }

  lemma {:induction false} ScanNames(s: string, p: nat, columns: seq<string>, end: nat, found: Option<nat>)
    requires columns != [] && At(s, p, Names(columns)) && end == p + |Names(columns)| && end < |s| && s[end] == ' '
    ensures FindKeyword(s, p, found) == FindKeyword(s, end, found)
    decreases |columns|
  {
    hide FindKeyword, Names, QuoteIdentifier, At;
    NamesSplit(s, p, columns, end);
    Identifier(s, p, columns[0], found);
    if |columns| > 1 {
      var q := p + |QuoteIdentifier(columns[0])|;
      PlainStep(s, q, found);
      PlainStep(s, q + 1, found);
      ScanNames(s, q + 2, columns[1..], end, found);
    }
  }

  lemma {:induction false} OneSpace(s: string, p: nat)
    requires p < |s| && Space(s[p]) && (p + 1 < |s| ==> !Space(s[p + 1]))
    ensures SkipSpaces(s, p) == p + 1
  {
    assert SkipSpaces(s, p + 1) == p + 1;
  }

  lemma {:induction false} NoSpace(s: string, p: nat)
    requires p <= |s| && (p < |s| ==> !Space(s[p]))
    ensures SkipSpaces(s, p) == p
  {
  }

  /** A space, the names and ` I…` read back as the names, stopping at the word. */
  lemma {:induction false} ReadNames(s: string, p: nat, columns: seq<string>, end: nat, read: seq<string>)
    requires p < |s| && s[p] == ' ' && columns != [] && At(s, p + 1, Names(columns))
    requires end == p + 1 + |Names(columns)| && end + 1 < |s| && s[end] == ' ' && s[end + 1] == 'I'
    ensures ReadColumns(s, p, read) == Some(Read(read + columns, end + 1))
    decreases |columns|
  {
    hide Names, QuoteIdentifier, At, ReadName, SkipSpaces;
    NamesSplit(s, p + 1, columns, end);
    Identifier(s, p + 1, columns[0], None);
    OneSpace(s, p);
    var q := p + 1 + |QuoteIdentifier(columns[0])|;
    if |columns| == 1 {
      OneSpace(s, q);
      assert columns == [columns[0]];
    } else {
      NoSpace(s, q);
      ReadNames(s, q + 1, columns[1..], end, read + [columns[0]]);
      assert read + [columns[0]] + columns[1..] == read + columns;
    }
  }

  // ------------------------------------------------------- reading the binds

  function Value(digits: string, n: nat): nat
    requires forall c <- digits :: T.Digit(c)
  {
    if digits == "" then n else
    assert digits[0] in digits;
    Value(digits[1..], (n * 10 + (digits[0] as int - '0' as int)) % WORD)
  }

  lemma {:induction false} ValueSnoc(digits: string, c: char, n: nat)
    requires (forall d <- digits :: T.Digit(d)) && T.Digit(c)
    ensures (forall d <- digits + [c] :: T.Digit(d))
    ensures Value(digits + [c], n) == (Value(digits, n) * 10 + (c as int - '0' as int)) % WORD
    decreases |digits|
  {
    if digits == "" {
      assert digits + [c] == [c] && [c][1..] == "";
    } else {
      assert digits[0] in digits && forall d <- digits[1..] :: d in digits;
      ValueSnoc(digits[1..], c, (n * 10 + (digits[0] as int - '0' as int)) % WORD);
      assert (digits + [c])[1..] == digits[1..] + [c];
    }
  }

  lemma {:induction false} DecimalReads(n: nat)
    requires n < WORD
    ensures Decimal(n) != "" && (forall c <- Decimal(n) :: T.Digit(c)) && Value(Decimal(n), 0) == n
  {
    if n < 10 {
      assert Decimal(n)[1..] == "";
    } else {
      DecimalReads(n / 10);
      ValueSnoc(Decimal(n / 10), DigitChar(n % 10), 0);
      assert n / 10 * 10 + n % 10 == n;
    }
  }

  lemma {:induction false} NumberReads(s: string, p: nat, digits: string, n: nat)
    requires At(s, p, digits) && (forall c <- digits :: T.Digit(c))
    requires p + |digits| < |s| ==> !T.Digit(s[p + |digits|])
    ensures ReadNumber(s, p, n) == Read(Value(digits, n), p + |digits|)
    decreases |digits|
  {
    if digits != "" {
      assert digits == [digits[0]] + digits[1..];
      assert digits[0] in digits && forall c <- digits[1..] :: c in digits;
      AtSplit(s, p, [digits[0]], digits[1..]);
      AtFirst(s, p, digits);
      NumberReads(s, p + 1, digits[1..], (n * 10 + (digits[0] as int - '0' as int)) % WORD);
    }
  }

  lemma {:induction false} BindsSplit(s: string, p: nat, first: nat, count: nat)
    requires count > 0 && At(s, p, Binds(first, count)) && p + |Binds(first, count)| == |s|
    ensures var d := Decimal(first % WORD); var q := p + 1 + |d|;
      && p < |s| && s[p] == ':' && At(s, p + 1, d)
      && (count == 1 ==> q == |s|)
      && (count > 1 ==> q + 1 < |s| && s[q] == ',' && s[q + 1] == ' ' && At(s, q + 2, Binds(first + 1, count - 1))
                        && q + 2 + |Binds(first + 1, count - 1)| == |s|)
  {
    hide Decimal;
    var d := Decimal(first % WORD);
    if count == 1 {
      assert Binds(first, count) == [':'] + d;
      AtSplit(s, p, [':'], d);
      AtFirst(s, p, [':']);
    } else {
      var rest := Binds(first + 1, count - 1);
      assert Binds(first, count) == [':'] + (d + (", " + rest));
      AtSplit(s, p, [':'], d + (", " + rest));
      AtFirst(s, p, [':']);
      AtSplit(s, p + 1, d, ", " + rest);
      AtSplit(s, p + 1 + |d|, ", ", rest);
      AtIndex(s, p + 1 + |d|, ", ", 0);
      AtIndex(s, p + 1 + |d|, ", ", 1);
    }
  }

  function Numbers(first: nat, count: nat): seq<nat> {
    seq(count, i => (first + i) % WORD)
  }

  lemma {:induction false} ReadNumbers(s: string, p: nat, first: nat, count: nat, read: seq<nat>)
    requires count > 0 && p < |s| && s[p] == ' ' && At(s, p + 1, Binds(first, count))
      && p + 1 + |Binds(first, count)| == |s|
    ensures ReadBinds(s, p, read) == Some(read + Numbers(first, count))
    decreases count
  {
    hide Decimal, Binds, At, ReadNumber, SkipSpaces, Value;
    BindsSplit(s, p + 1, first, count);
    OneSpace(s, p);
    var d := Decimal(first % WORD);
    var q := p + 2 + |d|;
    DecimalReads(first % WORD);
    NumberReads(s, p + 2, d, 0);
    var read' := read + [first % WORD];
    assert ReadBinds(s, p, read) == ReadBinds(s, q, read');
    if count == 1 {
      assert read + Numbers(first, count) == read';
    } else {
      NoSpace(s, q);
      assert ReadBinds(s, q, read') == ReadBinds(s, q + 1, read');
      ReadNumbers(s, q + 1, first + 1, count - 1, read');
      assert read + Numbers(first, count) == read' + Numbers(first + 1, count - 1);
    }
  }

  lemma {:induction false} DigitsAreQuiet(s: string, p: nat, digits: string, found: Option<nat>)
    requires At(s, p, digits) && forall c <- digits :: T.Digit(c)
    ensures FindKeyword(s, p, found) == FindKeyword(s, p + |digits|, found)
    decreases |digits|
  {
    if digits != "" {
      assert digits == [digits[0]] + digits[1..];
      assert digits[0] in digits && forall c <- digits[1..] :: c in digits;
      AtSplit(s, p, [digits[0]], digits[1..]);
      AtFirst(s, p, digits);
      PlainStep(s, p, found);
      DigitsAreQuiet(s, p + 1, digits[1..], found);
    }
  }

  lemma {:induction false} ScanBinds(s: string, p: nat, first: nat, count: nat, found: Option<nat>)
    requires count > 0 && At(s, p, Binds(first, count)) && p + |Binds(first, count)| == |s|
    ensures FindKeyword(s, p, found) == found
    decreases count
  {
    hide FindKeyword, Decimal, Binds, At;
    BindsSplit(s, p, first, count);
    var d := Decimal(first % WORD);
    DecimalReads(first % WORD);
    PlainStep(s, p, found);
    DigitsAreQuiet(s, p + 1, d, found);
    var q := p + 1 + |d|;
    if count == 1 {
      AtTheEnd(s, found);
    } else {
      PlainStep(s, q, found);
      PlainStep(s, q + 1, found);
      ScanBinds(s, q + 2, first + 1, count - 1, found);
    }
  }

  lemma {:induction false} AtTheEnd(s: string, found: Option<nat>)
    ensures FindKeyword(s, |s|, found) == found
  {
  }

  // ---------------------------------------------------------------- round trip

  /** Where the parts of `base + suffix` stand. */
  ghost predicate Laid(s: string, k: nat, columns: seq<string>, first: nat) {
    columns != [] &&
    var m := k + 10 + |Names(columns)|;
    && k + 10 <= |s| && At(s, k, "RETURNING ") && At(s, k + 10, Names(columns)) && At(s, m, " INTO ")
    && At(s, m + 6, Binds(first, |columns|)) && m + 6 + |Binds(first, |columns|)| == |s|
  }

  lemma {:induction false} Nested(n: string, b: string)
    ensures " RETURNING " + n + " INTO " + b == " " + ("RETURNING " + (n + (" INTO " + b)))
    ensures |" " + ("RETURNING " + (n + (" INTO " + b)))| == 17 + |n| + |b|
  {
    assert " RETURNING " == " " + "RETURNING ";
  }

  lemma {:induction false} Parts(s: string, k: nat, n: string, b: string)
    requires At(s, k, " " + ("RETURNING " + (n + (" INTO " + b))))
    ensures k < |s| && s[k] == ' ' && k + 11 <= |s| && At(s, k + 1, "RETURNING ") && At(s, k + 11, n)
    ensures At(s, k + 11 + |n|, " INTO ") && At(s, k + 17 + |n|, b)
  {
    hide At;
    var into := " INTO " + b;
    var names := n + into;
    var rest := "RETURNING " + names;
    AtSplit(s, k, " ", rest);
    AtFirst(s, k, " ");
    AtSplit(s, k + 1, "RETURNING ", names);
    AtSplit(s, k + 11, n, into);
    AtSplit(s, k + 11 + |n|, " INTO ", b);
    LastOf(s, k + 1);
  }

  lemma {:induction false} SuffixLaid(base: string, columns: seq<string>, first: nat)
    requires columns != []
    ensures var s := base + Suffix(columns, first);
      Laid(s, |base| + 1, columns, first) && Followed(s, base) && s[|base|] == ' '
  {
    hide Names, Binds, At;
    var n, b := Names(columns), Binds(first, |columns|);
    Nested(n, b);
    AtWhole(base, Suffix(columns, first));
    Parts(base + Suffix(columns, first), |base|, n, b);
  }

  lemma {:induction false} AtWhole(a: string, b: string)
    ensures At(a + b, |a|, b) && (a + b)[..|a|] == a
  {
  }

  lemma {:induction false} IntoIs(s: string, m: nat)
    requires At(s, m, " INTO ")
    ensures m + 5 < |s| && s[m] == ' ' && s[m + 1] == 'I' && s[m + 5] == ' ' && At(s, m + 1, "INTO" + " ")
  {
    assert " INTO " == " " + ("INTO" + " ");
    AtSplit(s, m, " ", "INTO" + " ");
    AtIndex(s, m, " INTO ", 0);
    AtIndex(s, m, " INTO ", 1);
    AtIndex(s, m, " INTO ", 5);
  }

  lemma {:induction false} ScanSuffix(s: string, k: nat, columns: seq<string>, first: nat, found: Option<nat>)
    requires Laid(s, k, columns, first)
    ensures FindKeyword(s, k, found) == Some(k)
  {
    hide FindKeyword, Names, Binds, At, FoldEquals, WordEnd;
    var m := k + 10 + |Names(columns)|;
    assert "RETURNING " == "RETURNING" + " ";
    Letters();
    WordStep(s, k, "RETURNING", found);
    LastOf(s, k);
    PlainStep(s, k + 9, Some(k));
    IntoIs(s, m);
    ScanNames(s, k + 10, columns, m, Some(k));
    PlainStep(s, m, Some(k));
    WordStep(s, m + 1, "INTO", Some(k));
    PlainStep(s, m + 5, Some(k));
    ScanBinds(s, m + 6, first, |columns|, Some(k));
  }

  lemma {:induction false} LastOf(s: string, k: nat)
    requires At(s, k, "RETURNING ")
    ensures k + 9 < |s| && s[k + 9] == ' '
  {
    AtIndex(s, k, "RETURNING ", 9);
  }

  lemma {:induction false} Letters()
    ensures forall c <- "RETURNING" :: WordChar(c)
    ensures forall c <- "INTO" :: WordChar(c)
    ensures FoldEquals("RETURNING", "RETURNING") && !FoldEquals("INTO", "RETURNING") && FoldEquals("INTO", "INTO")
  {
  }

  lemma {:induction false} TailReads(s: string, k: nat, columns: seq<string>, first: nat)
    requires Laid(s, k, columns, first) && first < WORD
    ensures ParseTail(s, k + 9) == Some(Returning(columns, |columns|, first))
  {
    hide Names, Binds, At, FoldEquals, WordEnd, ReadColumns, ReadBinds, SkipSpaces;
    var m := k + 10 + |Names(columns)|;
    LastOf(s, k);
    IntoIs(s, m);
    ReadNames(s, k + 9, columns, m, []);
    assert [] + columns == columns;
    NoSpace(s, m + 1);
    Letters();
    WordStep(s, m + 1, "INTO", None);
    ReadNumbers(s, m + 5, first, |columns|, []);
    assert [] + Numbers(first, |columns|) == Numbers(first, |columns|);
    assert Numbers(first, |columns|)[0] == first;
  }

  /** The parser undoes the printer behind every base statement whose quotes are closed,
      for every non-empty list of names and every first bind. */
  lemma {:induction false} RoundTrip(base: string, columns: seq<string>, first: nat)
    requires Closed(base) && columns != [] && first < WORD
    ensures Parse(base + Suffix(columns, first)) == Some(Returning(columns, |columns|, first))
  {
    hide FindKeyword, ParseTail, Suffix, Laid, Closed, WordEnd;
    var s := base + Suffix(columns, first);
    SuffixLaid(base, columns, first);
    var found := ScanBase(s, base, 0, None);
    PlainStep(s, |base|, found);
    ScanSuffix(s, |base| + 1, columns, first, found);
    LaidFits(s, |base| + 1, columns, first);
    TailReads(s, |base| + 1, columns, first);
  }

  lemma {:induction false} LaidFits(s: string, k: nat, columns: seq<string>, first: nat)
    requires Laid(s, k, columns, first)
    ensures k + 9 <= |s|
  {
  }
}
