/**
  An independent reading of the generated SQL: a recursive-descent parser for
  search conditions (sections 8.3 and 8.12 of ISO/IEC 9075:1992) and its
  three-valued meaning, where the k-th `?` of the statement denotes the k-th
  parameter. The theorems say the builder's text means what its tree means.
*/
module WhereClause {
  import opened Wrappers
  import opened SqlBuilder
  import opened Slices

  // ------------------------------------------------------ three-valued logic

  datatype Truth = True | False | Unknown

  function And3(a: Truth, b: Truth): Truth {
    if a.False? || b.False? then False else if a.Unknown? || b.Unknown? then Unknown else True
  }

  function Or3(a: Truth, b: Truth): Truth {
    if a.True? || b.True? then True else if a.Unknown? || b.Unknown? then Unknown else False
  }

  function Not3(a: Truth): Truth {
    match a case True => False case False => True case Unknown => Unknown
  }

  function Lift(b: bool): Truth { if b then True else False }

  /** One row, and the comparison of two values that are not NULL. */
  datatype Row = Row(column: string -> Value, compare: (Op, int, int) -> bool)

  /** The numerals of `1 = 1` and `1 = 0` compare as numbers. */
  ghost predicate Numeric(row: Row) { row.compare(Equal, 1, 1) && !row.compare(Equal, 1, 0) }

  function Compare3(row: Row, op: Op, a: Value, b: Value): Truth {
    if a.Null? || b.Null? then Unknown else Lift(row.compare(op, a.v, b.v))
  }

  function Between3(row: Row, x: Value, lower: Value, upper: Value): Truth {
    And3(Compare3(row, GreaterOrEqual, x, lower), Compare3(row, LessOrEqual, x, upper))
  }

  // ------------------------------------------------------ meaning of a tree

  function Member3(row: Row, x: Value, values: seq<Value>): Truth {
    if values == [] then False else Or3(Compare3(row, Equal, x, values[0]), Member3(row, x, values[1..]))
  }

  function Denote(c: Condition, row: Row): Truth
    decreases c, 1
  {
    match c
    case Invalid => Unknown
    case Compare(field, op, value) =>
      if !value.Null? then Compare3(row, op, row.column(field), value)
      else if op.Equal? then Lift(row.column(field).Null?)
      else Lift(!row.column(field).Null?)
    case In(field, values) => Member3(row, row.column(field), values)
    case NotIn(field, values) => Not3(Member3(row, row.column(field), values))
    case Between(field, lower, upper) => Between3(row, row.column(field), lower, upper)
    case IsNull(field) => Lift(row.column(field).Null?)
    case IsNotNull(field) => Lift(!row.column(field).Null?)
    case All(children) => DenoteAll(children, row)
    case Any(children) => DenoteAny(children, row)
    case Not(child) => Not3(Denote(child, row))
  }

  function DenoteAll(cs: seq<Condition>, row: Row): Truth
    decreases cs, 0
  {
    if cs == [] then True else And3(Denote(cs[0], row), DenoteAll(cs[1..], row))
  }

  function DenoteAny(cs: seq<Condition>, row: Row): Truth
    decreases cs, 0
  {
    if cs == [] then False else Or3(Denote(cs[0], row), DenoteAny(cs[1..], row))
  }

  // ------------------------------------------------------------- the parser

  /** A placeholder is kept as its position in the statement. */
  datatype Operand = Column(name: string) | Literal(n: int) | Mark(at: nat)

  datatype Pred =
    | PCompare(left: Operand, op: Op, right: Operand)
    | PIn(x: Operand, list: seq<Operand>)
    | PBetween(x: Operand, lower: Operand, upper: Operand)
    | PIsNull(x: Operand)
    | PAnd(p: Pred, q: Pred)
    | POr(p: Pred, q: Pred)
    | PNot(p: Pred)

  datatype Parsed<T> = Parsed(value: T, next: nat)

  function ParseOperand(ts: seq<Token>, i: nat): (r: Option<Parsed<Operand>>)
    ensures r.Some? ==> i < r.value.next <= |ts|
  {
    if i >= |ts| then None else
    match ts[i]
    case Ident(name) => Some(Parsed(Column(name), i + 1))
    case Num(n) => Some(Parsed(Literal(n), i + 1))
    case Param => Some(Parsed(Mark(i), i + 1))
    case _ => None
  }

  /** Operands separated by commas, up to and including `)`. */
  function ParseList(ts: seq<Token>, i: nat): (r: Option<Parsed<seq<Operand>>>)
    ensures r.Some? ==> i < r.value.next <= |ts|
    decreases |ts| - i
  {
    var x := ParseOperand(ts, i);
    if x.None? || x.value.next >= |ts| then None
    else if ts[x.value.next] == RParen then Some(Parsed([x.value.value], x.value.next + 1))
    else if ts[x.value.next] != Comma then None
    else
      var rest := ParseList(ts, x.value.next + 1);
      if rest.None? then None else Some(Parsed([x.value.value] + rest.value.value, rest.value.next))
  }

  function Negated(p: Pred, negated: bool): Pred { if negated then PNot(p) else p }

  function ParsePredicate(ts: seq<Token>, i: nat): (r: Option<Parsed<Pred>>)
    ensures r.Some? ==> i < r.value.next <= |ts|
  {
    var x := ParseOperand(ts, i);
    if x.None? || x.value.next >= |ts| then None else
    var j, left := x.value.next, x.value.value;
    if ts[j].Cmp? then
      var y := ParseOperand(ts, j + 1);
      if y.None? then None else Some(Parsed(PCompare(left, ts[j].op, y.value.value), y.value.next))
    else if ts[j] == IS then
      var negated := j + 1 < |ts| && ts[j + 1] == NOT;
      var k := if negated then j + 2 else j + 1;
      if k >= |ts| || ts[k] != NULL then None else Some(Parsed(Negated(PIsNull(left), negated), k + 1))
    else
      var negated := ts[j] == NOT;
      var k := if negated then j + 1 else j;
      if k < |ts| && ts[k] == BETWEEN then ParseBetween(ts, k + 1, left, negated)
      else if k + 1 < |ts| && ts[k] == IN && ts[k + 1] == LParen then
        var list := ParseList(ts, k + 2);
        if list.None? then None else Some(Parsed(Negated(PIn(left, list.value.value), negated), list.value.next))
      else None
  }

  /** `lower AND upper`: this AND belongs to BETWEEN. */
  function ParseBetween(ts: seq<Token>, i: nat, x: Operand, negated: bool): (r: Option<Parsed<Pred>>)
    ensures r.Some? ==> i < r.value.next <= |ts|
  {
    var lower := ParseOperand(ts, i);
    if lower.None? || lower.value.next >= |ts| || ts[lower.value.next] != AND then None else
    var upper := ParseOperand(ts, lower.value.next + 1);
    if upper.None? then None
    else Some(Parsed(Negated(PBetween(x, lower.value.value, upper.value.value), negated), upper.value.next))
  }

  /** search condition: terms joined by OR. */
  function ParseCondition(ts: seq<Token>, i: nat): (r: Option<Parsed<Pred>>)
    ensures r.Some? ==> i < r.value.next <= |ts|
    decreases |ts| - i, 4
  {
    var p := ParseTerm(ts, i);
    if p.None? then None else OrTail(ts, p.value)
  }

  function OrTail(ts: seq<Token>, p: Parsed<Pred>): (r: Option<Parsed<Pred>>)
    ensures r.Some? ==> p.next <= r.value.next && (p.next <= |ts| ==> r.value.next <= |ts|)
    decreases |ts| - p.next, 0
  {
    if p.next >= |ts| || ts[p.next] != OR then Some(p) else
    var q := ParseTerm(ts, p.next + 1);
    if q.None? then None else OrTail(ts, Parsed(POr(p.value, q.value.value), q.value.next))
  }

  /** boolean term: factors joined by AND. */
  function ParseTerm(ts: seq<Token>, i: nat): (r: Option<Parsed<Pred>>)
    ensures r.Some? ==> i < r.value.next <= |ts|
    decreases |ts| - i, 3
  {
    var p := ParseFactor(ts, i);
    if p.None? then None else AndTail(ts, p.value)
  }

  function AndTail(ts: seq<Token>, p: Parsed<Pred>): (r: Option<Parsed<Pred>>)
    ensures r.Some? ==> p.next <= r.value.next && (p.next <= |ts| ==> r.value.next <= |ts|)
    decreases |ts| - p.next, 0
  {
    if p.next >= |ts| || ts[p.next] != AND then Some(p) else
    var q := ParseFactor(ts, p.next + 1);
    if q.None? then None else AndTail(ts, Parsed(PAnd(p.value, q.value.value), q.value.next))
  }

  /** boolean factor: an optional NOT before a primary. */
  function ParseFactor(ts: seq<Token>, i: nat): (r: Option<Parsed<Pred>>)
    ensures r.Some? ==> i < r.value.next <= |ts|
    decreases |ts| - i, 2
  {
    if i >= |ts| then None
    else if ts[i] != NOT then ParsePrimary(ts, i) else
    var p := ParsePrimary(ts, i + 1);
    if p.None? then None else Some(Parsed(PNot(p.value.value), p.value.next))
  }

  /** boolean primary: a predicate, or a parenthesised search condition. */
  function ParsePrimary(ts: seq<Token>, i: nat): (r: Option<Parsed<Pred>>)
    ensures r.Some? ==> i < r.value.next <= |ts|
    decreases |ts| - i, 1
  {
    if i >= |ts| then None
    else if ts[i] != LParen then ParsePredicate(ts, i) else
    var p := ParseCondition(ts, i + 1);
    if p.None? || p.value.next >= |ts| || ts[p.value.next] != RParen then None
    else Some(Parsed(p.value.value, p.value.next + 1))
  }

  // ------------------------------------------------ meaning of parsed text

  /** How many placeholders stand before position `i`. */
  function MarksBefore(ts: seq<Token>, i: nat): nat {
    if i == 0 then 0
    else MarksBefore(ts, i - 1) + if i <= |ts| && ts[i - 1] == Param then 1 else 0
  }

  /** What a database sees: the statement, its parameters and a row. */
  datatype Env = Env(ts: seq<Token>, params: seq<Value>, row: Row)

  function Read(e: Env, x: Operand): Value {
    match x
    case Column(name) => e.row.column(name)
    case Literal(n) => Known(n)
    case Mark(at) =>
      var k := MarksBefore(e.ts, at);
      if k < |e.params| then e.params[k] else Null
  }

  function ReadAll(e: Env, xs: seq<Operand>): seq<Value> {
    seq(|xs|, i requires 0 <= i < |xs| => Read(e, xs[i]))
  }

  function Eval(p: Pred, e: Env): Truth {
    match p
    case PCompare(left, op, right) => Compare3(e.row, op, Read(e, left), Read(e, right))
    case PIn(x, list) => Member3(e.row, Read(e, x), ReadAll(e, list))
    case PBetween(x, lower, upper) => Between3(e.row, Read(e, x), Read(e, lower), Read(e, upper))
    case PIsNull(x) => Lift(Read(e, x).Null?)
    case PAnd(p, q) => And3(Eval(p, e), Eval(q, e))
    case POr(p, q) => Or3(Eval(p, e), Eval(q, e))
    case PNot(p) => Not3(Eval(p, e))
  }

  // ------------------------------------------------------ locating the text

  /** Text `xs` and values `vs` stand at `i`, and the first placeholder of the text is the first value. */
  ghost predicate Here(e: Env, i: nat, xs: seq<Token>, vs: seq<Value>) {
    At(e.ts, i, xs) && At(e.params, MarksBefore(e.ts, i), vs)
  }

  lemma {:induction false} MarksAcross(ts: seq<Token>, i: nat, xs: seq<Token>, k: nat)
    requires At(ts, i, xs) && k <= |xs|
    ensures MarksBefore(ts, i + k) == MarksBefore(ts, i) + MarksBefore(xs, k)
  {
    if k > 0 { MarksAcross(ts, i, xs, k - 1); assert ts[i + (k - 1)] == xs[k - 1]; }
  }

  lemma {:induction false} MarksConcat(a: seq<Token>, b: seq<Token>)
    ensures MarksBefore(a + b, |a| + |b|) == MarksBefore(a, |a|) + MarksBefore(b, |b|)
  {
    assert At(a + b, 0, a);
    MarksAcross(a + b, 0, a, |a|);
    assert At(a + b, |a|, b);
    MarksAcross(a + b, |a|, b, |b|);
  }

  // ------------------------------------------- one mark per parameter

  /** Placeholders of the whole text. */
  function MarkCount(ts: seq<Token>): nat { MarksBefore(ts, |ts|) }

  lemma {:induction false} CountConcat(a: seq<Token>, b: seq<Token>)
    ensures MarkCount(a + b) == MarkCount(a) + MarkCount(b)
  {
    MarksConcat(a, b);
  }

  lemma {:induction false} Plain(ts: seq<Token>)
    requires Param !in ts
    ensures MarkCount(ts) == 0
  {
    NoMarks(ts, |ts|);
  }

  lemma {:induction false} NoMarks(ts: seq<Token>, n: nat)
    requires n <= |ts| && Param !in ts[..n]
    ensures MarksBefore(ts, n) == 0
  {
    if n > 0 { assert ts[n - 1] in ts[..n]; assert ts[..n - 1] <= ts[..n]; NoMarks(ts, n - 1); }
  }

  lemma {:induction false} OneMark(ts: seq<Token>)
    requires Param !in ts
    ensures MarkCount(ts + [Param]) == 1
  {
    Plain(ts);
    CountConcat(ts, [Param]);
    assert MarksBefore([Param], 1) == 1 + MarksBefore([Param], 0);
  }

  lemma {:induction false} MarksOfMarks(n: nat)
    ensures MarkCount(Marks(n)) == n
  {
    if n > 0 { OneMark([]); assert [] + [Param] == [Param]; }
    if n > 1 {
      MarksOfMarks(n - 1);
      Plain([Comma]);
      CountConcat([Param], [Comma]);
      assert [Param] + [Comma] == [Param, Comma];
      CountConcat([Param, Comma], Marks(n - 1));
    }
  }

  lemma {:induction false} MarksOfList(field: string, negated: bool, n: nat)
    ensures MarkCount(ListTokens(field, negated, n)) == n
  {
    hide MarkCount;
    if n == 0 {
      Plain(ListTokens(field, negated, n));
    } else {
      var head := if negated then [Ident(field), NOT, IN, LParen] else [Ident(field), IN, LParen];
      Plain(head);
      MarksOfMarks(n);
      CountConcat(head, Marks(n));
      Plain([RParen]);
      CountConcat(head + Marks(n), [RParen]);
    }
  }

  lemma {:induction false} MarksOfAtom(c: Condition)
    requires WellFormed(c) && !c.All? && !c.Any? && !c.Not?
    ensures MarkCount(Tokens(c, true)) == |Params(c)|
  {
    hide MarkCount;
    match c
    case Compare(field, op, value) =>
      if value.Null? { Plain(Tokens(c, true)); }
      else { OneMark([Ident(field), Cmp(op)]); assert Tokens(c, true) == [Ident(field), Cmp(op)] + [Param]; }
    case In(field, values) => MarksOfList(field, false, |values|);
    case NotIn(field, values) => MarksOfList(field, true, |values|);
    case Between(field, _, _) =>
      OneMark([Ident(field), BETWEEN]);
      OneMark([AND]);
      CountConcat([Ident(field), BETWEEN] + [Param], [AND] + [Param]);
      assert Tokens(c, true) == ([Ident(field), BETWEEN] + [Param]) + ([AND] + [Param]);
    case IsNull(field) => Plain(Tokens(c, true));
    case IsNotNull(field) => Plain(Tokens(c, true));
  }

  /** The text of a tree has exactly one placeholder per collected parameter. */
  lemma {:induction false} MarksMatchParams(c: Condition, nested: bool)
    requires WellFormed(c)
    ensures MarkCount(Tokens(c, nested)) == |Params(c)|
    decreases c, 1
  {
    hide MarkCount;
    match c
    case All(children) => MarksOfJoined(children, AND); MarksOfWrap(Joined(children, AND), nested);
    case Any(children) => MarksOfJoined(children, OR); MarksOfWrap(Joined(children, OR), nested);
    case Not(child) =>
      MarksMatchParams(child, false);
      Plain([NOT]);
      MarksOfWrap(Tokens(child, false), true);
      CountConcat([NOT], [LParen] + Tokens(child, false) + [RParen]);
      assert Tokens(c, nested) == [NOT] + ([LParen] + Tokens(child, false) + [RParen]);
    case _ => MarksOfAtom(c);
  }

  lemma {:induction false} MarksOfWrap(ts: seq<Token>, nested: bool)
    ensures MarkCount(Wrap(ts, nested)) == MarkCount(ts)
  {
    hide MarkCount;
    Plain([LParen]); Plain([RParen]);
    CountConcat([LParen], ts);
    CountConcat([LParen] + ts, [RParen]);
  }

  lemma {:induction false} MarksOfJoined(cs: seq<Condition>, sep: Token)
    requires (forall c <- cs :: WellFormed(c)) && sep != Param
    ensures MarkCount(Joined(cs, sep)) == |ParamsOf(cs)|
    decreases cs, 0
  {
    hide MarkCount, Tokens, WellFormed, Params;
    if cs == [] { Plain([]); } else {
      MarksMatchParams(cs[0], true);
      MarksOfRest(cs[1..], sep);
      CountConcat(Tokens(cs[0], true), Rest(cs[1..], sep));
    }
  }

  lemma {:induction false} MarksOfRest(cs: seq<Condition>, sep: Token)
    requires (forall c <- cs :: WellFormed(c)) && sep != Param
    ensures MarkCount(Rest(cs, sep)) == |ParamsOf(cs)|
    decreases cs, 0
  {
    hide MarkCount, Tokens, WellFormed, Params;
    if cs == [] { Plain([]); } else {
      MarksMatchParams(cs[0], true);
      MarksOfRest(cs[1..], sep);
      Plain([sep]);
      CountConcat([sep], Tokens(cs[0], true));
      CountConcat([sep] + Tokens(cs[0], true), Rest(cs[1..], sep));
    }
  }

  /** Two adjacent pieces of text read two adjacent runs of parameters. */
  lemma {:induction false} HereSplit(e: Env, i: nat, a: seq<Token>, va: seq<Value>, b: seq<Token>, vb: seq<Value>)
    requires Here(e, i, a + b, va + vb) && MarkCount(a) == |va|
    ensures Here(e, i, a, va) && Here(e, i + |a|, b, vb)
  {
    hide At, MarksBefore;
    AtSplit(e.ts, i, a, b);
    AtSplit(e.params, MarksBefore(e.ts, i), va, vb);
    MarksAcross(e.ts, i, a, |a|);
  }

  // ------------------------------------------------- parsing the text back

  /** `p` ends where `xs` ends and means `t`. */
  ghost predicate Reads(p: Option<Parsed<Pred>>, e: Env, end: nat, t: Truth) {
    p.Some? && p.value.next == end && Eval(p.value.value, e) == t
  }

  /** One step of the list parser on a placeholder. */
  lemma {:induction false} ListStep(ts: seq<Token>, i: nat)
    requires i + 1 < |ts| && ts[i] == Param
    ensures ts[i + 1] == RParen ==> ParseList(ts, i) == Some(Parsed([Mark(i)], i + 2))
    ensures ts[i + 1] == Comma && ParseList(ts, i + 2).Some? ==>
      var rest := ParseList(ts, i + 2).value;
      ParseList(ts, i) == Some(Parsed([Mark(i)] + rest.value, rest.next))
  {
    assert ParseOperand(ts, i) == Some(Parsed(Mark(i), i + 1));
  }

  lemma {:induction false} ReadMark(e: Env, i: nat, v: Value, rest: seq<Operand>)
    requires At(e.params, MarksBefore(e.ts, i), [v])
    ensures ReadAll(e, [Mark(i)] + rest) == [v] + ReadAll(e, rest)
  {
    hide MarksBefore;
    AtFirst(e.params, MarksBefore(e.ts, i), [v]);
  }

  lemma {:induction false} NextMark(e: Env, i: nat, values: seq<Value>)
    requires |values| > 1 && Here(e, i, Marks(|values|) + [RParen], values)
    ensures i + 1 < |e.ts| && e.ts[i] == Param && e.ts[i + 1] == Comma
    ensures At(e.params, MarksBefore(e.ts, i), [values[0]])
    ensures Here(e, i + 2, Marks(|values| - 1) + [RParen], values[1..])
  {
    hide At, MarksBefore, MarkCount;
    var next := Marks(|values| - 1) + [RParen];
    assert Marks(|values|) + [RParen] == [Param, Comma] + next;
    assert values == [values[0]] + values[1..];
    OneMark([]); Plain([Comma]); CountConcat([] + [Param], [Comma]);
    assert [] + [Param] + [Comma] == [Param, Comma];
    HereSplit(e, i, [Param, Comma], [values[0]], next, values[1..]);
    AtIndex(e.ts, i, [Param, Comma], 0);
    AtIndex(e.ts, i, [Param, Comma], 1);
  }

  lemma {:induction false} ListParses(e: Env, i: nat, values: seq<Value>)
    requires values != [] && Here(e, i, Marks(|values|) + [RParen], values)
    ensures var r := ParseList(e.ts, i);
      r.Some? && r.value.next == i + |Marks(|values|)| + 1 && ReadAll(e, r.value.value) == values
    decreases |values|
  {
    hide At, MarksBefore, ParseList, ReadAll;
    if |values| == 1 {
      assert values == [values[0]] && Marks(1) + [RParen] == [Param, RParen];
      AtIndex(e.ts, i, [Param, RParen], 0);
      AtIndex(e.ts, i, [Param, RParen], 1);
      ListStep(e.ts, i);
      ReadMark(e, i, values[0], []);
      ReadNone(e);
      assert [Mark(i)] + [] == [Mark(i)];
    } else {
      NextMark(e, i, values);
      ListParses(e, i + 2, values[1..]);
      ListStep(e.ts, i);
      ReadMark(e, i, values[0], ParseList(e.ts, i + 2).value.value);
      assert values == [values[0]] + values[1..];
    }
  }

  lemma {:induction false} ReadNone(e: Env)
    ensures ReadAll(e, []) == []
  {
  }

  lemma {:induction false} InShape(ts: seq<Token>, i: nat, field: string, negated: bool)
    requires At(ts, i, if negated then [Ident(field), NOT, IN, LParen] else [Ident(field), IN, LParen])
    ensures var list := ParseList(ts, if negated then i + 4 else i + 3);
      list.Some? ==>
        ParseFactor(ts, i) == Some(Parsed(Negated(PIn(Column(field), list.value.value), negated), list.value.next))
  {
    hide At, ParseList;
    if negated {
      var head := [Ident(field), NOT, IN, LParen];
      AtIndex(ts, i, head, 0); AtIndex(ts, i, head, 1); AtIndex(ts, i, head, 2); AtIndex(ts, i, head, 3);
      NotInPredicate(ts, i, field);
    } else {
      var head := [Ident(field), IN, LParen];
      AtIndex(ts, i, head, 0); AtIndex(ts, i, head, 1); AtIndex(ts, i, head, 2);
      InPredicate(ts, i, field);
    }
    assert ParseFactor(ts, i) == ParsePredicate(ts, i);
  }

  lemma {:induction false} InPredicate(ts: seq<Token>, i: nat, field: string)
    requires i + 3 <= |ts| && ts[i] == Ident(field) && ts[i + 1] == IN && ts[i + 2] == LParen
    ensures var list := ParseList(ts, i + 3);
      list.Some? ==> ParsePredicate(ts, i) == Some(Parsed(PIn(Column(field), list.value.value), list.value.next))
  {
    hide ParseList;
  }

  lemma {:induction false} NotInPredicate(ts: seq<Token>, i: nat, field: string)
    requires i + 4 <= |ts| && ts[i] == Ident(field) && ts[i + 1] == NOT && ts[i + 2] == IN && ts[i + 3] == LParen
    ensures var list := ParseList(ts, i + 4);
      list.Some? ==> ParsePredicate(ts, i) == Some(Parsed(PNot(PIn(Column(field), list.value.value)), list.value.next))
  {
    hide ParseList;
  }

  lemma {:induction false} EmptyInParses(e: Env, i: nat, n: int)
    requires Numeric(e.row) && At(e.ts, i, [Num(1), Cmp(Equal), Num(n)]) && (n == 0 || n == 1)
    ensures Reads(ParseFactor(e.ts, i), e, i + 3, Lift(n == 1))
  {
    var text := [Num(1), Cmp(Equal), Num(n)];
    assert e.ts[i] == text[0] && e.ts[i + 1] == text[1] && e.ts[i + 2] == text[2];
    assert ParseOperand(e.ts, i + 2) == Some(Parsed(Literal(n), i + 3));
    assert ParseFactor(e.ts, i) == Some(Parsed(PCompare(Literal(1), Equal, Literal(n)), i + 3));
  }

  lemma {:induction false} InParses(e: Env, i: nat, field: string, negated: bool, values: seq<Value>)
    requires Numeric(e.row) && Here(e, i, ListTokens(field, negated, |values|), values)
    ensures var member := Member3(e.row, e.row.column(field), values);
      Reads(ParseFactor(e.ts, i), e, i + |ListTokens(field, negated, |values|)|,
            if negated then Not3(member) else member)
  {
    hide At, MarkCount, MarksBefore, ParseFactor, ParseList;
    if values == [] {
      EmptyInParses(e, i, if negated then 1 else 0);
    } else {
      var head := if negated then [Ident(field), NOT, IN, LParen] else [Ident(field), IN, LParen];
      var tail := Marks(|values|) + [RParen];
      assert ListTokens(field, negated, |values|) == head + tail;
      Plain(head);
      assert values == [] + values;
      HereSplit(e, i, head, [], tail, values);
      ListParses(e, i + |head|, values);
      InShape(e.ts, i, field, negated);
      var list := ParseList(e.ts, i + |head|).value;
      assert Eval(PIn(Column(field), list.value), e) == Member3(e.row, e.row.column(field), values);
    }
  }

  lemma {:induction false} CompareShape(ts: seq<Token>, i: nat, field: string, op: Op)
    requires At(ts, i, [Ident(field), Cmp(op), Param])
    ensures ParseFactor(ts, i) == Some(Parsed(PCompare(Column(field), op, Mark(i + 2)), i + 3))
  {
    var text := [Ident(field), Cmp(op), Param];
    assert ts[i] == text[0] && ts[i + 1] == text[1] && ts[i + 2] == text[2];
  }

  lemma {:induction false} CompareParses(e: Env, i: nat, field: string, op: Op, value: Value)
    requires Here(e, i, [Ident(field), Cmp(op), Param], [value])
    ensures Reads(ParseFactor(e.ts, i), e, i + 3, Compare3(e.row, op, e.row.column(field), value))
  {
    hide ParseFactor;
    var text := [Ident(field), Cmp(op), Param];
    CompareShape(e.ts, i, field, op);
    MarksAcross(e.ts, i, text, 2);
    NoMarks(text, 2);
    assert e.params[MarksBefore(e.ts, i) + 0] == [value][0];
  }

  lemma {:induction false} NullParses(e: Env, i: nat, field: string, negated: bool)
    requires At(e.ts, i, if negated then [Ident(field), IS, NOT, NULL] else [Ident(field), IS, NULL])
    ensures Reads(ParseFactor(e.ts, i), e, i + (if negated then 4 else 3), Lift(e.row.column(field).Null? != negated))
  {
    hide ParseFactor, At;
    NullShape(e.ts, i, field, negated);
    assert Eval(PIsNull(Column(field)), e) == Lift(e.row.column(field).Null?);
  }

  lemma {:induction false} NullShape(ts: seq<Token>, i: nat, field: string, negated: bool)
    requires At(ts, i, if negated then [Ident(field), IS, NOT, NULL] else [Ident(field), IS, NULL])
    ensures ParseFactor(ts, i)
      == Some(Parsed(Negated(PIsNull(Column(field)), negated), if negated then i + 4 else i + 3))
  {
    var text := if negated then [Ident(field), IS, NOT, NULL] else [Ident(field), IS, NULL];
    assert ts[i] == text[0] && ts[i + 1] == text[1] && ts[i + 2] == text[2];
    assert negated ==> ts[i + 3] == text[3];
  }

  lemma {:induction false} BetweenShape(ts: seq<Token>, i: nat, field: string)
    requires At(ts, i, [Ident(field), BETWEEN, Param, AND, Param])
    ensures ParseFactor(ts, i) == Some(Parsed(PBetween(Column(field), Mark(i + 2), Mark(i + 4)), i + 5))
  {
    var text := [Ident(field), BETWEEN, Param, AND, Param];
    assert ts[i] == text[0] && ts[i + 1] == text[1] && ts[i + 2] == text[2] && ts[i + 3] == text[3]
      && ts[i + 4] == text[4];
  }

  lemma {:induction false} BetweenParses(e: Env, i: nat, field: string, lower: Value, upper: Value)
    requires Here(e, i, [Ident(field), BETWEEN, Param, AND, Param], [lower, upper])
    ensures Reads(ParseFactor(e.ts, i), e, i + 5, Between3(e.row, e.row.column(field), lower, upper))
  {
    hide ParseFactor, Between3;
    var text := [Ident(field), BETWEEN, Param, AND, Param];
    BetweenShape(e.ts, i, field);
    MarksAcross(e.ts, i, text, 2);
    MarksAcross(e.ts, i, text, 4);
    NoMarks(text, 2);
    assert MarksBefore(text, 4) == 1 by { assert MarksBefore(text, 3) == 1; }
    var vs := [lower, upper];
    assert e.params[MarksBefore(e.ts, i) + 0] == vs[0] && e.params[MarksBefore(e.ts, i) + 1] == vs[1];
  }

  /** Nothing after position `j` extends a search condition. */
  ghost predicate Ends(ts: seq<Token>, j: nat) { j < |ts| ==> ts[j] != AND && ts[j] != OR }

  lemma {:induction false} AtomParses(e: Env, i: nat, c: Condition)
    requires Numeric(e.row) && WellFormed(c) && !c.All? && !c.Any? && !c.Not? && Here(e, i, Tokens(c, true), Params(c))
    ensures Reads(ParseFactor(e.ts, i), e, i + |Tokens(c, true)|, Denote(c, e.row))
  {
    hide ParseFactor, At, MarksBefore;
    match c
    case Compare(field, op, value) =>
      if value.Null? { NullParses(e, i, field, !op.Equal?); } else { CompareParses(e, i, field, op, value); }
    case In(field, values) => InParses(e, i, field, false, values);
    case NotIn(field, values) => InParses(e, i, field, true, values);
    case Between(field, lower, upper) => BetweenParses(e, i, field, lower, upper);
    case IsNull(field) => NullParses(e, i, field, false);
    case IsNotNull(field) => NullParses(e, i, field, true);
  }

  lemma {:induction false} Parenthesised(e: Env, i: nat, text: seq<Token>, values: seq<Value>)
    requires Here(e, i, [LParen] + text + [RParen], values)
    ensures e.ts[i] == LParen && Here(e, i + 1, text, values)
    ensures i + 1 + |text| < |e.ts| && e.ts[i + 1 + |text|] == RParen
  {
    Plain([LParen]);
    assert [LParen] + text + [RParen] == [LParen] + (text + [RParen]);
    assert [] + values == values;
    HereSplit(e, i, [LParen], [], text + [RParen], values);
    assert e.ts[i] == [LParen][0];
    AtSplit(e.ts, i + 1, text, [RParen]);
    assert e.ts[i + 1 + |text| + 0] == [RParen][0];
  }

  lemma {:induction false} Unwrapped(e: Env, i: nat, end: nat, t: Truth)
    requires i < |e.ts| && e.ts[i] == LParen && end < |e.ts| && e.ts[end] == RParen
    requires Reads(ParseCondition(e.ts, i + 1), e, end, t)
    ensures Reads(ParsePrimary(e.ts, i), e, end + 1, t)
    ensures Reads(ParseFactor(e.ts, i), e, end + 1, t)
    ensures i > 0 && e.ts[i - 1] == NOT ==> Reads(ParseFactor(e.ts, i - 1), e, end + 1, Not3(t))
  {
    hide ParseCondition;
    assert ParsePrimary(e.ts, i) == Some(Parsed(ParseCondition(e.ts, i + 1).value.value, end + 1));
  }

  /** A child of a group, wherever it stands, parses as one boolean factor with the meaning of its tree. */
  lemma {:induction false} FactorParses(e: Env, i: nat, c: Condition)
    requires Numeric(e.row) && WellFormed(c) && Here(e, i, Tokens(c, true), Params(c))
    ensures Reads(ParseFactor(e.ts, i), e, i + |Tokens(c, true)|, Denote(c, e.row))
    decreases c, 1
  {
    hide ParseFactor, ParseCondition, ParsePrimary, Here, Reads, Numeric;
    match c
    case All(_) =>
      Parenthesised(e, i, Tokens(c, false), Params(c));
      GroupParses(e, i + 1, c);
      Unwrapped(e, i, i + 1 + |Tokens(c, false)|, Denote(c, e.row));
    case Any(_) =>
      Parenthesised(e, i, Tokens(c, false), Params(c));
      GroupParses(e, i + 1, c);
      Unwrapped(e, i, i + 1 + |Tokens(c, false)|, Denote(c, e.row));
    case Not(child) =>
      Negation(e, i, child);
      ConditionParses(e, i + 2, child);
      Unwrapped(e, i + 1, i + 2 + |Tokens(child, false)|, Denote(child, e.row));
    case _ => AtomParses(e, i, c);
  }

  lemma {:induction false} Negation(e: Env, i: nat, child: Condition)
    requires Here(e, i, Tokens(Not(child), true), Params(Not(child)))
    ensures i + 2 + |Tokens(child, false)| < |e.ts|
    ensures e.ts[i] == NOT && e.ts[i + 1] == LParen && e.ts[i + 2 + |Tokens(child, false)|] == RParen
    ensures Here(e, i + 2, Tokens(child, false), Params(child))
  {
    var text := [LParen] + Tokens(child, false) + [RParen];
    assert Tokens(Not(child), true) == [NOT] + text;
    Plain([NOT]);
    assert [] + Params(child) == Params(child);
    HereSplit(e, i, [NOT], [], text, Params(child));
    assert e.ts[i] == [NOT][0];
    Parenthesised(e, i + 1, Tokens(child, false), Params(child));
  }

  /** A top-level or parenthesised tree parses as one whole search condition. */
  lemma {:induction false} ConditionParses(e: Env, i: nat, c: Condition)
    requires Numeric(e.row) && WellFormed(c) && Here(e, i, Tokens(c, false), Params(c))
    requires Ends(e.ts, i + |Tokens(c, false)|)
    ensures Reads(ParseCondition(e.ts, i), e, i + |Tokens(c, false)|, Denote(c, e.row))
    decreases c, 2
  {
    hide ParseFactor, ParseCondition, Here, Reads, Numeric;
    if c.All? || c.Any? {
      GroupParses(e, i, c);
    } else {
      assert Tokens(c, false) == Tokens(c, true);
      FactorParses(e, i, c);
      Alone(e, i, i + |Tokens(c, false)|, Denote(c, e.row));
    }
  }

  lemma {:induction false} Alone(e: Env, i: nat, end: nat, t: Truth)
    requires Reads(ParseFactor(e.ts, i), e, end, t) && Ends(e.ts, end)
    ensures Reads(ParseCondition(e.ts, i), e, end, t)
  {
    hide ParseFactor;
    var p := ParseFactor(e.ts, i).value;
    assert AndTail(e.ts, p) == Some(p) && OrTail(e.ts, p) == Some(p);
  }

  lemma {:induction false} GroupParses(e: Env, i: nat, c: Condition)
    requires Numeric(e.row) && WellFormed(c) && (c.All? || c.Any?) && Here(e, i, Tokens(c, false), Params(c))
    requires Ends(e.ts, i + |Tokens(c, false)|)
    ensures Reads(ParseCondition(e.ts, i), e, i + |Tokens(c, false)|, Denote(c, e.row))
    decreases c, 0
  {
    hide ParseFactor, At, Numeric, AndTail, OrTail, Eval, Tokens, Params;
    var cs := c.children;
    GroupText(e, i, c);
    FactorParses(e, i, cs[0]);
    var first := ParseFactor(e.ts, i).value;
    if c.All? { AndParses(e, first, cs[1..]); NoOr(e.ts, AndTail(e.ts, first).value); }
    else { NoAnd(e, first, cs[1..]); OrParses(e, first, cs[1..]); }
  }

  /** The first child of a group, and the text after it. */
  lemma {:induction false} GroupText(e: Env, i: nat, c: Condition)
    requires WellFormed(c) && (c.All? || c.Any?) && Here(e, i, Tokens(c, false), Params(c))
    ensures var cs, sep := c.children, if c.All? then AND else OR;
      && cs != [] && Here(e, i, Tokens(cs[0], true), Params(cs[0]))
      && Here(e, i + |Tokens(cs[0], true)|, Rest(cs[1..], sep), ParamsOf(cs[1..]))
      && |Tokens(c, false)| == |Tokens(cs[0], true)| + |Rest(cs[1..], sep)|
  {
    hide At, MarkCount, MarksBefore, Here;
    var cs, sep := c.children, if c.All? then AND else OR;
    MarksMatchParams(cs[0], true);
    assert Tokens(c, false) == Joined(cs, sep) && Params(c) == ParamsOf(cs);
    assert ParamsOf(cs) == Params(cs[0]) + ParamsOf(cs[1..]);
    HereSplit(e, i, Tokens(cs[0], true), Params(cs[0]), Rest(cs[1..], sep), ParamsOf(cs[1..]));
  }

  lemma {:induction false} NoOr(ts: seq<Token>, p: Parsed<Pred>)
    requires Ends(ts, p.next)
    ensures OrTail(ts, p) == Some(p)
  {
  }

  lemma {:induction false} NoAndHere(ts: seq<Token>, p: Parsed<Pred>)
    requires Ends(ts, p.next)
    ensures AndTail(ts, p) == Some(p)
  {
  }

  lemma {:induction false} AndStep(ts: seq<Token>, p: Parsed<Pred>, q: Parsed<Pred>)
    requires p.next < |ts| && ts[p.next] == AND && ParseFactor(ts, p.next + 1) == Some(q)
    ensures AndTail(ts, p) == AndTail(ts, Parsed(PAnd(p.value, q.value), q.next))
  {
    hide ParseFactor;
  }

  lemma {:induction false} OrStep(ts: seq<Token>, p: Parsed<Pred>, q: Parsed<Pred>)
    requires p.next < |ts| && ts[p.next] == OR
    requires ParseFactor(ts, p.next + 1) == Some(q) && AndTail(ts, q) == Some(q)
    ensures OrTail(ts, p) == OrTail(ts, Parsed(POr(p.value, q.value), q.next))
  {
    hide ParseFactor, AndTail;
  }

  /** `AND c1 AND c2 …` after `p` conjoins them all. */
  lemma {:induction false} AndParses(e: Env, p: Parsed<Pred>, cs: seq<Condition>)
    requires Numeric(e.row) && (forall c <- cs :: WellFormed(c)) && Here(e, p.next, Rest(cs, AND), ParamsOf(cs))
    requires Ends(e.ts, p.next + |Rest(cs, AND)|)
    ensures Reads(AndTail(e.ts, p), e, p.next + |Rest(cs, AND)|, And3(Eval(p.value, e), DenoteAll(cs, e.row)))
    decreases cs, 0
  {
    hide ParseFactor, Here, Numeric, Denote, Tokens, AndTail, WellFormed, Params;
    if cs == [] { NoAndHere(e.ts, p); } else {
      NextChild(e, p.next, cs, AND);
      FactorParses(e, p.next + 1, cs[0]);
      var q := ParseFactor(e.ts, p.next + 1).value;
      AndStep(e.ts, p, q);
      AndParses(e, Parsed(PAnd(p.value, q.value), q.next), cs[1..]);
    }
  }

  lemma {:induction false} NoAnd(e: Env, p: Parsed<Pred>, cs: seq<Condition>)
    requires At(e.ts, p.next, Rest(cs, OR)) && Ends(e.ts, p.next + |Rest(cs, OR)|)
    ensures AndTail(e.ts, p) == Some(p)
  {
    if cs != [] { assert Rest(cs, OR)[0] == OR; }
  }

  /** `OR c1 OR c2 …` after `p` disjoins them all. */
  lemma {:induction false} OrParses(e: Env, p: Parsed<Pred>, cs: seq<Condition>)
    requires Numeric(e.row) && (forall c <- cs :: WellFormed(c)) && Here(e, p.next, Rest(cs, OR), ParamsOf(cs))
    requires Ends(e.ts, p.next + |Rest(cs, OR)|)
    ensures Reads(OrTail(e.ts, p), e, p.next + |Rest(cs, OR)|, Or3(Eval(p.value, e), DenoteAny(cs, e.row)))
    decreases cs, 0
  {
    hide ParseFactor, At, Numeric, Denote, Tokens, AndTail, OrTail, WellFormed, Params;
    if cs == [] { NoOr(e.ts, p); } else {
      NextChild(e, p.next, cs, OR);
      FactorParses(e, p.next + 1, cs[0]);
      var q := ParseFactor(e.ts, p.next + 1).value;
      NoAnd(e, q, cs[1..]);
      OrStep(e.ts, p, q);
      OrParses(e, Parsed(POr(p.value, q.value), q.next), cs[1..]);
    }
  }

  lemma {:induction false} NextChild(e: Env, i: nat, cs: seq<Condition>, sep: Token)
    requires cs != [] && WellFormed(cs[0]) && sep != Param && Here(e, i, Rest(cs, sep), ParamsOf(cs))
    ensures i < |e.ts| && e.ts[i] == sep
    ensures Here(e, i + 1, Tokens(cs[0], true), Params(cs[0]))
    ensures Here(e, i + 1 + |Tokens(cs[0], true)|, Rest(cs[1..], sep), ParamsOf(cs[1..]))
  {
    hide WellFormed, Tokens, Params, MarkCount;
    var a, b := Tokens(cs[0], true), Rest(cs[1..], sep);
    Plain([sep]);
    assert Rest(cs, sep) == [sep] + (a + b);
    assert [] + ParamsOf(cs) == ParamsOf(cs);
    HereSplit(e, i, [sep], [], a + b, ParamsOf(cs));
    AtFirst(e.ts, i, [sep]);
    MarksMatchParams(cs[0], true);
    HereSplit(e, i + 1, a, Params(cs[0]), b, ParamsOf(cs[1..]));
  }
}
