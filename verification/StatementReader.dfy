/**
  A reader for whole statements, written without the builder: verb, table,
  fields, search condition and ordering. What the builder builds reads back as
  what was asked for.
*/
module StatementReader {
  import opened Wrappers
  import opened SqlBuilder
  import opened WhereClause
  import opened BuilderTheorems
  import opened Slices

  datatype Verb = Reading | Counting | Inserting | Updating | Deleting

  datatype Sentence = Sentence(
    verb: Verb, table: string, fields: seq<string>, where: Option<Pred>, orderings: seq<Ordering>)

  predicate Word(ts: seq<Token>, i: nat, text: string) { i < |ts| && ts[i] == Keyword(text) }

  predicate Is(ts: seq<Token>, i: nat, t: Token) { i < |ts| && ts[i] == t }

  // -------------------------------------------------------------------- lists

  /** Names separated by commas. */
  function ReadFields(ts: seq<Token>, i: nat): Option<Parsed<seq<string>>>
    decreases |ts| - i
  {
    if i >= |ts| || !ts[i].Ident? then None
    else if !Is(ts, i + 1, Comma) then Some(Parsed([ts[i].name], i + 1))
    else
      var rest := ReadFields(ts, i + 2);
      if rest.None? then None else Some(Parsed([ts[i].name] + rest.value.value, rest.value.next))
  }

  /** `name = ?` separated by commas. */
  function ReadSets(ts: seq<Token>, i: nat): Option<Parsed<seq<string>>>
    decreases |ts| - i
  {
    if i >= |ts| || !ts[i].Ident? || !Is(ts, i + 1, Cmp(Equal)) || !Is(ts, i + 2, Param) then None
    else if !Is(ts, i + 3, Comma) then Some(Parsed([ts[i].name], i + 3))
    else
      var rest := ReadSets(ts, i + 4);
      if rest.None? then None else Some(Parsed([ts[i].name] + rest.value.value, rest.value.next))
  }

  /** How many `?` separated by commas. */
  function ReadMarks(ts: seq<Token>, i: nat): Option<Parsed<nat>>
    decreases |ts| - i
  {
    if !Is(ts, i, Param) then None
    else if !Is(ts, i + 1, Comma) then Some(Parsed(1, i + 1))
    else
      var rest := ReadMarks(ts, i + 2);
      if rest.None? then None else Some(Parsed(1 + rest.value.value, rest.value.next))
  }

  /** `name ASC` or `name DESC` separated by commas. */
  function ReadOrders(ts: seq<Token>, i: nat): Option<Parsed<seq<Ordering>>>
    decreases |ts| - i
  {
    if i >= |ts| || !ts[i].Ident? || !(Word(ts, i + 1, "ASC") || Word(ts, i + 1, "DESC")) then None
    else
      var o := Ordering(ts[i].name, Word(ts, i + 1, "ASC"));
      if !Is(ts, i + 2, Comma) then Some(Parsed([o], i + 2))
      else
        var rest := ReadOrders(ts, i + 3);
        if rest.None? then None else Some(Parsed([o] + rest.value.value, rest.value.next))
  }

  // ----------------------------------------------------------------- statements

  function ReadWhere(ts: seq<Token>, i: nat): Option<Parsed<Option<Pred>>> {
    if !Word(ts, i, "WHERE") then Some(Parsed(None, i))
    else
      var c := ParseCondition(ts, i + 1);
      if c.None? then None else Some(Parsed(Some(c.value.value), c.value.next))
  }

  function ReadOrder(ts: seq<Token>, i: nat): Option<Parsed<seq<Ordering>>> {
    if !Word(ts, i, "ORDER BY") then Some(Parsed([], i)) else ReadOrders(ts, i + 1)
  }

  /** Search condition and ordering, up to the end of the statement. */
  function ReadRest(ts: seq<Token>, i: nat, verb: Verb, table: string, fields: seq<string>): Option<Sentence> {
    var where := ReadWhere(ts, i);
    if where.None? then None else
    var order := ReadOrder(ts, where.value.next);
    if order.None? || order.value.next != |ts| then None
    else Some(Sentence(verb, table, fields, where.value.value, order.value.value))
  }

  function ReadFrom(ts: seq<Token>, i: nat, verb: Verb, fields: seq<string>): Option<Sentence> {
    if !Word(ts, i, "FROM") || i + 1 >= |ts| || !ts[i + 1].Ident? then None
    else ReadRest(ts, i + 2, verb, ts[i + 1].name, fields)
  }

  function ReadSelect(ts: seq<Token>): Option<Sentence> {
    if Word(ts, 1, "COUNT(*)") || Word(ts, 1, "COUNT_BIG(*)") then ReadFrom(ts, 2, Counting, [])
    else if Word(ts, 1, "*") then ReadFrom(ts, 2, Reading, [])
    else
      var fields := ReadFields(ts, 1);
      if fields.None? then None else ReadFrom(ts, fields.value.next, Reading, fields.value.value)
  }

  function ReadInsert(ts: seq<Token>): Option<Sentence> {
    if 1 >= |ts| || !ts[1].Ident? || !Is(ts, 2, LParen) then None else
    var fields := ReadFields(ts, 3);
    if fields.None? then None else
    var i := fields.value.next;
    if !Is(ts, i, RParen) || !Word(ts, i + 1, "VALUES") || !Is(ts, i + 2, LParen) then None else
    var marks := ReadMarks(ts, i + 3);
    if marks.None? || marks.value.value != |fields.value.value| || !Is(ts, marks.value.next, RParen)
       || marks.value.next + 1 != |ts| then None
    else Some(Sentence(Inserting, ts[1].name, fields.value.value, None, []))
  }

  function ReadUpdate(ts: seq<Token>): Option<Sentence> {
    if 1 >= |ts| || !ts[1].Ident? || !Word(ts, 2, "SET") then None else
    var sets := ReadSets(ts, 3);
    if sets.None? then None else ReadRest(ts, sets.value.next, Updating, ts[1].name, sets.value.value)
  }

  function ReadStatement(ts: seq<Token>): Option<Sentence> {
    if Word(ts, 0, "SELECT") then ReadSelect(ts)
    else if Word(ts, 0, "INSERT INTO") then ReadInsert(ts)
    else if Word(ts, 0, "UPDATE") then ReadUpdate(ts)
    else if Word(ts, 0, "DELETE FROM") && 1 < |ts| && ts[1].Ident? then ReadRest(ts, 2, Deleting, ts[1].name, [])
    else None
  }

  // ---------------------------------------------------------- printed lists read back

  lemma {:induction false} ListedShape(names: seq<string>)
    requires names != []
    ensures |Listed(names)| == 2 * |names| - 1
    ensures forall k :: 0 <= k < |names| ==> Listed(names)[2 * k] == Ident(names[k])
    ensures forall k :: 0 <= k < |names| - 1 ==> Listed(names)[2 * k + 1] == Comma
  {
    var n := |names| - 1;
    if n > 0 {
      var init := names[..n];
      ListedShape(init);
      assert Listed(names) == Listed(init) + [Comma] + [Ident(names[n])];
      forall k | 0 <= k < n ensures Listed(names)[2 * k] == Ident(names[k]) { assert names[k] == init[k]; }
      forall k | 0 <= k < n ensures Listed(names)[2 * k + 1] == Comma {
        if k < n - 1 { assert Listed(init)[2 * k + 1] == Comma; }
      }
    }
  }

  lemma {:induction false} FieldsRead(ts: seq<Token>, i: nat, names: seq<string>, k: nat)
    requires k < |names| && At(ts, i, Listed(names)) && !Is(ts, i + |Listed(names)|, Comma)
    ensures ReadFields(ts, i + 2 * k) == Some(Parsed(names[k..], i + |Listed(names)|))
    decreases |names| - k
  {
    hide Listed;
    ListedShape(names);
    AtIndex(ts, i, Listed(names), 2 * k);
    if k + 1 < |names| {
      AtIndex(ts, i, Listed(names), 2 * k + 1);
      FieldsRead(ts, i, names, k + 1);
      assert names[k..] == [names[k]] + names[k + 1..];
    } else {
      assert names[k..] == [names[k]];
    }
  }

  /** The k-th assignment and the comma behind it. */
  lemma {:induction false} SetAt(values: seq<(string, Value)>, k: nat)
    requires k < |values|
    ensures |Assigned(values)| == 4 * |values| - 1
    ensures var ts, i := Assigned(values), 4 * k;
      && ts[i] == Ident(values[k].0) && ts[i + 1] == Cmp(Equal) && ts[i + 2] == Param
      && (k + 1 < |values| ==> ts[i + 3] == Comma)
    decreases |values|
  {
    var n := |values| - 1;
    var init := values[..n];
    var sep, last := if n == 0 then [] else [Comma], [Ident(values[n].0), Cmp(Equal), Param];
    AssignedLength(init);
    assert Assigned(values) == Assigned(init) + sep + last;
    if k < n { SetAt(init, k); }
  }

  lemma {:induction false} SetsRead(ts: seq<Token>, i: nat, values: seq<(string, Value)>, k: nat)
    requires k < |values| && At(ts, i, Assigned(values)) && !Is(ts, i + |Assigned(values)|, Comma)
    ensures ReadSets(ts, i + 4 * k) == Some(Parsed(Names(values)[k..], i + |Assigned(values)|))
    decreases |values| - k
  {
    hide Assigned;
    SetAt(values, k);
    AtIndex(ts, i, Assigned(values), 4 * k);
    AtIndex(ts, i, Assigned(values), 4 * k + 1);
    AtIndex(ts, i, Assigned(values), 4 * k + 2);
    var names := Names(values);
    if k + 1 < |values| {
      AtIndex(ts, i, Assigned(values), 4 * k + 3);
      SetsRead(ts, i, values, k + 1);
      assert names[k..] == [names[k]] + names[k + 1..];
    } else {
      assert names[k..] == [names[k]];
    }
  }

  lemma {:induction false} MarksRead(ts: seq<Token>, i: nat, n: nat)
    requires n > 0 && At(ts, i, Marks(n)) && !Is(ts, i + |Marks(n)|, Comma)
    ensures |Marks(n)| == 2 * n - 1 && ReadMarks(ts, i) == Some(Parsed(n, i + |Marks(n)|))
    decreases n
  {
    AtFirst(ts, i, Marks(n));
    if n > 1 {
      AtIndex(ts, i, Marks(n), 1);
      AtSplit(ts, i, [Param, Comma], Marks(n - 1));
      MarksRead(ts, i + 2, n - 1);
    }
  }

  function Direction(o: Ordering): Token { Keyword(if o.ascending then "ASC" else "DESC") }

  lemma {:induction false} OrderedSnoc(orderings: seq<Ordering>, n: nat)
    requires n + 1 == |orderings|
    ensures Ordered(orderings) == Ordered(orderings[..n]) + (if n == 0 then [] else [Comma])
      + [Ident(orderings[n].field), Direction(orderings[n])]
  {
  }

  lemma {:induction false} OrderedLength(orderings: seq<Ordering>)
    ensures |Ordered(orderings)| == if orderings == [] then 0 else 3 * |orderings| - 1
  {
    if orderings != [] { OrderedLength(orderings[..|orderings| - 1]); }
  }

  /** The k-th ordering and the comma behind it. */
  lemma {:induction false} OrderAt(orderings: seq<Ordering>, k: nat)
    requires k < |orderings|
    ensures |Ordered(orderings)| == 3 * |orderings| - 1
    ensures var ts, i := Ordered(orderings), 3 * k;
      && ts[i] == Ident(orderings[k].field) && ts[i + 1] == Direction(orderings[k])
      && (k + 1 < |orderings| ==> ts[i + 2] == Comma)
    decreases |orderings|
  {
    hide Ordered, Direction;
    var n := |orderings| - 1;
    OrderedLength(orderings[..n]);
    OrderedSnoc(orderings, n);
    if k < n { OrderAt(orderings[..n], k); }
  }

  lemma {:induction false} DirectionReads(ts: seq<Token>, i: nat, o: Ordering)
    requires i + 1 < |ts| && ts[i] == Ident(o.field) && ts[i + 1] == Direction(o)
    ensures !Is(ts, i + 2, Comma) ==> ReadOrders(ts, i) == Some(Parsed([o], i + 2))
    ensures Is(ts, i + 2, Comma) && ReadOrders(ts, i + 3).Some? ==>
      var rest := ReadOrders(ts, i + 3).value; ReadOrders(ts, i) == Some(Parsed([o] + rest.value, rest.next))
  {
    assert |"ASC"| == 3 && |"DESC"| == 4;
    assert Word(ts, i + 1, "ASC") == o.ascending;
    assert o == Ordering(o.field, o.ascending);
  }

  lemma {:induction false} OrdersRead(ts: seq<Token>, i: nat, orderings: seq<Ordering>, k: nat)
    requires k < |orderings| && At(ts, i, Ordered(orderings)) && i + |Ordered(orderings)| == |ts|
    ensures ReadOrders(ts, i + 3 * k) == Some(Parsed(orderings[k..], |ts|))
    decreases |orderings| - k
  {
    hide Ordered, ReadOrders, Direction, At;
    OrderAt(orderings, k);
    AtIndex(ts, i, Ordered(orderings), 3 * k);
    AtIndex(ts, i, Ordered(orderings), 3 * k + 1);
    DirectionReads(ts, i + 3 * k, orderings[k]);
    if k + 1 < |orderings| {
      AtIndex(ts, i, Ordered(orderings), 3 * k + 2);
      OrdersRead(ts, i, orderings, k + 1);
      assert orderings[k..] == [orderings[k]] + orderings[k + 1..];
    } else {
      assert orderings[k..] == [orderings[k]];
    }
  }

  // ------------------------------------------------------ built statements read back

  lemma {:induction false} Keywords()
    ensures "ORDER BY" != "WHERE" && "*" != "COUNT(*)" && "*" != "COUNT_BIG(*)"
    ensures "INSERT INTO" != "SELECT" && "UPDATE" != "SELECT" && "UPDATE" != "INSERT INTO" && "DELETE FROM" != "SELECT"
    ensures "DELETE FROM" != "INSERT INTO" && "DELETE FROM" != "UPDATE"
  {
    assert |"ORDER BY"| == 8 && |"WHERE"| == 5 && |"*"| == 1 && |"COUNT(*)"| == 8 && |"COUNT_BIG(*)"| == 12;
    assert |"INSERT INTO"| == 11 && |"SELECT"| == 6 && |"UPDATE"| == 6 && |"DELETE FROM"| == 11;
    assert "UPDATE"[0] == 'U' && "SELECT"[0] == 'S' && "DELETE FROM"[0] == 'D' && "INSERT INTO"[0] == 'I';
  }

  /** The sentence says what was asked for: its condition has, for every row, the truth of the conditions. */
  ghost predicate Says(
    r: Option<Sentence>, verb: Verb, table: string, fields: seq<string>, cs: seq<Condition>, os: seq<Ordering>, e: Env)
  {
    && r.Some? && r.value.verb == verb && r.value.table == table && r.value.fields == fields
    && r.value.orderings == os && (r.value.where.Some? <==> cs != [])
    && (cs != [] ==> Eval(r.value.where.value, e) == DenoteAll(cs, e.row))
  }

  lemma {:induction false} OrderReads(ts: seq<Token>, i: nat, os: seq<Ordering>)
    requires At(ts, i, OrderTokens(os)) && i + |OrderTokens(os)| == |ts|
    ensures ReadOrder(ts, i) == Some(Parsed(os, |ts|)) && !Word(ts, i, "WHERE")
  {
    Keywords();
    if os != [] {
      AtSplit(ts, i, [Keyword("ORDER BY")], Ordered(os));
      AtFirst(ts, i, [Keyword("ORDER BY")]);
      OrdersRead(ts, i + 1, os, 0);
      assert os[0..] == os;
    }
  }

  /** Everything behind the head of a statement. */
  lemma {:induction false} RestReads(
    e: Env, head: seq<Token>, values: seq<Value>, cs: seq<Condition>, os: seq<Ordering>,
    verb: Verb, table: string, fields: seq<string>)
    requires Numeric(e.row) && WhereOk(cs) && MarkCount(head) == |values|
    requires e.ts == head + WhereTokens(cs) + OrderTokens(os) && e.params == values + WhereParams(cs)
    ensures Says(ReadRest(e.ts, |head|, verb, table, fields), verb, table, fields, cs, os, e)
  {
    hide WellFormed, Numeric, ParseCondition, MarkCount, Tokens, Params, DenoteAll, Eval, ReadOrder, At, Ordered;
    AtPlaces(head, WhereTokens(cs), OrderTokens(os));
    OrderReads(e.ts, |head| + |WhereTokens(cs)|, os);
    if cs != [] { WhereParses(e, head, values, cs, OrderTokens(os)); }
  }

  lemma {:induction false} HeadStands(
    ts: seq<Token>, a: seq<Token>, b: seq<Token>, c: seq<Token>, rest: seq<Token>)
    requires ts == a + b + c + rest
    ensures At(ts, 0, a) && At(ts, |a|, b) && At(ts, |a| + |b|, c)
  {
  }

  function Listing(columns: seq<string>): seq<Token> { if columns == [] then [Keyword("*")] else Listed(columns) }

  lemma {:induction false} ListingReads(ts: seq<Token>, columns: seq<string>)
    requires At(ts, 1, Listing(columns)) && Word(ts, 1 + |Listing(columns)|, "FROM")
    ensures ReadSelect(ts) == ReadFrom(ts, 1 + |Listing(columns)|, Reading, columns)
  {
    hide ReadFrom, ReadFields, Listed, At;
    Keywords();
    if columns == [] {
      AtFirst(ts, 1, Listing(columns));
    } else {
      ListedShape(columns);
      AtFirst(ts, 1, Listing(columns));
      assert Listed(columns)[2 * 0] == Ident(columns[0]);
      FieldsRead(ts, 1, columns, 0);
      assert columns[0..] == columns;
    }
  }

  lemma {:induction false} SelectHead(ts: seq<Token>, columns: seq<string>, table: string, rest: seq<Token>)
    requires ts == [Keyword("SELECT")] + Listing(columns) + [Keyword("FROM"), Ident(table)] + rest
    ensures ReadStatement(ts) == ReadRest(ts, 3 + |Listing(columns)|, Reading, table, columns)
  {
    hide ReadRest, Listing, ReadSelect, At;
    var list, from := Listing(columns), [Keyword("FROM"), Ident(table)];
    HeadStands(ts, [Keyword("SELECT")], list, from, rest);
    AtFirst(ts, 0, [Keyword("SELECT")]);
    AtIndex(ts, 1 + |list|, from, 0);
    AtIndex(ts, 1 + |list|, from, 1);
    ListingReads(ts, columns);
  }

  lemma {:induction false} SelectReads(b: Builder, row: Row)
    requires Build(b).Some? && b.operation.Select? && Numeric(row)
    ensures var s := Build(b).value;
      Says(ReadStatement(s.sql), Reading, b.table, b.columns, b.conditions, b.orderings, Env(s.sql, s.params, row))
  {
    hide Numeric, Says, WhereTokens, OrderTokens, WhereParams, ReadRest, Listed, MarkCount, WhereOk, ReadStatement;
    var s, w, o := Build(b).value, WhereTokens(b.conditions), OrderTokens(b.orderings);
    MarksOfHead(b);
    RestReads(Env(s.sql, s.params, row), Head(b).sql, Head(b).params, b.conditions, b.orderings,
              Reading, b.table, b.columns);
    assert s.sql == Head(b).sql + (w + o);
    SelectHead(s.sql, b.columns, b.table, w + o);
  }

  lemma {:induction false} AfterHead(ts: seq<Token>, head: seq<Token>, cs: seq<Condition>, os: seq<Ordering>)
    requires ts == head + WhereTokens(cs) + OrderTokens(os)
    ensures !Is(ts, |head|, Comma)
  {
    hide Tokens, Ordered;
  }

  lemma {:induction false} UpdateReads(b: Builder, row: Row)
    requires Build(b).Some? && b.operation.Update? && Numeric(row)
    ensures var s := Build(b).value;
      Says(ReadStatement(s.sql), Updating, b.table, Names(b.values), b.conditions, [], Env(s.sql, s.params, row))
  {
    hide Numeric, Says, WhereTokens, OrderTokens, WhereParams, ReadRest, Assigned, MarkCount, WhereOk, At, ReadSets;
    hide Names, UniqueFields;
    Keywords();
    var s, head := Build(b).value, Head(b).sql;
    MarksOfHead(b);
    RestReads(Env(s.sql, s.params, row), head, Head(b).params, b.conditions, b.orderings,
              Updating, b.table, Names(b.values));
    UpdatePieces(b);
    var front := [Keyword("UPDATE"), Ident(b.table), Keyword("SET")];
    AtIndex(s.sql, 0, front, 0); AtIndex(s.sql, 0, front, 1); AtIndex(s.sql, 0, front, 2);
    AfterHead(s.sql, head, b.conditions, b.orderings);
    SetsRead(s.sql, 3, b.values, 0);
    NamesLength(b.values);
    assert Names(b.values)[0..] == Names(b.values);
  }

  lemma {:induction false} NamesLength(values: seq<(string, Value)>)
    ensures |Names(values)| == |values|
  {
  }

  lemma {:induction false} DeleteReads(b: Builder, row: Row)
    requires Build(b).Some? && b.operation.Delete? && Numeric(row)
    ensures var s := Build(b).value;
      Says(ReadStatement(s.sql), Deleting, b.table, [], b.conditions, [], Env(s.sql, s.params, row))
  {
    hide Numeric, Says, WhereTokens, OrderTokens, WhereParams, ReadRest, MarkCount, WhereOk, At;
    Keywords();
    var s, head := Build(b).value, [Keyword("DELETE FROM"), Ident(b.table)];
    MarksOfHead(b);
    RestReads(Env(s.sql, s.params, row), head, [], b.conditions, b.orderings, Deleting, b.table, []);
    HeadStands(s.sql, head, WhereTokens(b.conditions), OrderTokens(b.orderings), []);
    AtIndex(s.sql, 0, head, 0); AtIndex(s.sql, 0, head, 1);
  }

  lemma {:induction false} InsertPieces(ts: seq<Token>, table: string, names: seq<string>, n: nat)
    requires ts == [Keyword("INSERT INTO"), Ident(table), LParen] + Listed(names)
                   + [RParen, Keyword("VALUES"), LParen] + Marks(n) + [RParen]
    ensures var i := 3 + |Listed(names)|;
      && At(ts, 0, [Keyword("INSERT INTO"), Ident(table), LParen]) && At(ts, 3, Listed(names))
      && At(ts, i, [RParen, Keyword("VALUES"), LParen]) && At(ts, i + 3, Marks(n)) && Is(ts, i + 3 + |Marks(n)|, RParen)
      && |ts| == i + 4 + |Marks(n)|
  {
    hide Listed, Marks;
  }

  lemma {:induction false} InsertReads(b: Builder)
    requires Build(b).Some? && b.operation.Insert?
    ensures ReadStatement(Build(b).value.sql) == Some(Sentence(Inserting, b.table, Names(b.values), None, []))
  {
    hide Listed, Marks, At, ReadFields, ReadMarks, Names, UniqueFields;
    Keywords();
    var ts, names, n := Build(b).value.sql, Names(b.values), |b.values|;
    NamesLength(b.values);
    InsertPieces(ts, b.table, names, n);
    var front, mid := [Keyword("INSERT INTO"), Ident(b.table), LParen], [RParen, Keyword("VALUES"), LParen];
    var i := 3 + |Listed(names)|;
    AtIndex(ts, 0, front, 0); AtIndex(ts, 0, front, 1); AtIndex(ts, 0, front, 2);
    AtIndex(ts, i, mid, 0); AtIndex(ts, i, mid, 1); AtIndex(ts, i, mid, 2);
    FieldsRead(ts, 3, names, 0);
    assert names[0..] == names;
    MarksRead(ts, i + 3, n);
  }

  /** Every built statement reads back as the builder's own: verb, table, fields in order, orderings with their
      directions, and a search condition with the truth of the conditions for every row. */
  lemma {:induction false} BuiltReadsBack(b: Builder, row: Row)
    requires Build(b).Some? && Numeric(row)
    ensures var s := Build(b).value;
      var verb := match b.operation
                  case Select => Reading case Insert => Inserting case Update => Updating case Delete => Deleting;
      Says(ReadStatement(s.sql), verb, b.table, if b.operation.Select? then b.columns else Names(b.values),
           b.conditions, b.orderings, Env(s.sql, s.params, row))
  {
    hide Numeric, ReadStatement, UniqueFields, Head, WhereOk;
    match b.operation
    case Select => SelectReads(b, row);
    case Insert => InsertReads(b);
    case Update => UpdateReads(b, row);
    case Delete => DeleteReads(b, row);
  }

  /** The COUNT of a page counts the rows of the same table that satisfy the same conditions. */
  lemma {:induction false} CountReadsBack(b: Builder, row: Row)
    requires BuildPage(b).Some? && Numeric(row)
    ensures var s := BuildPage(b).value.count;
      && Says(ReadStatement(s.sql), Counting, b.table, [], b.conditions, [], Env(s.sql, s.params, row))
      && Word(s.sql, 1, if b.sqlServer then "COUNT_BIG(*)" else "COUNT(*)")
  {
    hide Numeric, Says, WhereTokens, WhereParams, ReadRest, MarkCount, WhereOk, At;
    Keywords();
    var s, head := BuildPage(b).value.count, CountHead(b);
    Plain(head);
    assert s.sql == head + WhereTokens(b.conditions) + OrderTokens([]);
    assert s.params == [] + WhereParams(b.conditions);
    RestReads(Env(s.sql, s.params, row), head, [], b.conditions, [], Counting, b.table, []);
    HeadStands(s.sql, head, WhereTokens(b.conditions), OrderTokens([]), []);
    AtIndex(s.sql, 0, head, 0); AtIndex(s.sql, 0, head, 1); AtIndex(s.sql, 0, head, 2); AtIndex(s.sql, 0, head, 3);
  }
}
