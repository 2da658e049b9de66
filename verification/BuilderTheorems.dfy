/**
  Whole statements: where each placeholder of a built statement stands, which
  parameter it binds, and what its WHERE clause means to the database.
*/
module BuilderTheorems {
  import opened Wrappers
  import opened SqlBuilder
  import opened WhereClause
  import opened Slices

  // ------------------------------------------------------- the WHERE clause

  /** `head WHERE conditions tail` denotes the conjunction of the conditions, read with its own parameters. */
  lemma {:induction false} WhereParses(
    e: Env, head: seq<Token>, values: seq<Value>, cs: seq<Condition>, tail: seq<Token>)
    requires Numeric(e.row) && cs != [] && WellFormed(All(cs)) && MarkCount(head) == |values|
    requires e.ts == head + WhereTokens(cs) + tail && e.params == values + WhereParams(cs)
    requires Ends(tail, 0)
    ensures |head| < |e.ts| && e.ts[|head|] == Keyword("WHERE")
    ensures Reads(ParseCondition(e.ts, |head| + 1), e, |head| + |WhereTokens(cs)|, DenoteAll(cs, e.row))
  {
    hide WellFormed, Numeric, ParseCondition, Reads, Here, MarkCount, Tokens, Params;
    TextPlaced(e, head, values, Tokens(All(cs), false), Params(All(cs)), tail);
    ConditionParses(e, |head| + 1, All(cs));
    DenotesAll(cs, e.row);
  }

  lemma {:induction false} WherePieces(head: seq<Token>, text: seq<Token>, tail: seq<Token>)
    ensures var ts, before := head + ([Keyword("WHERE")] + text) + tail, head + [Keyword("WHERE")];
      && At(ts, 0, before) && At(ts, |head| + 1, text) && At(ts, |head| + 1 + |text|, tail)
      && |ts| == |head| + 1 + |text| + |tail|
  {
    hide At;
    Regroup(head, text, tail);
    AtPlaces(head + [Keyword("WHERE")], text, tail);
  }

  lemma {:induction false} TwoPieces(values: seq<Value>, rest: seq<Value>)
    ensures At(values + rest, |values|, rest)
  {
  }

  lemma {:induction false} EndsAt(ts: seq<Token>, j: nat, tail: seq<Token>)
    requires At(ts, j, tail) && |ts| == j + |tail| && Ends(tail, 0)
    ensures Ends(ts, j)
  {
    if j < |ts| { AtFirst(ts, j, tail); }
  }

  lemma {:induction false} TextPlaced(
    e: Env, head: seq<Token>, values: seq<Value>, text: seq<Token>, rest: seq<Value>, tail: seq<Token>)
    requires MarkCount(head) == |values| && Ends(tail, 0)
    requires e.ts == head + ([Keyword("WHERE")] + text) + tail && e.params == values + rest
    ensures |head| < |e.ts| && e.ts[|head|] == Keyword("WHERE")
    ensures Here(e, |head| + 1, text, rest) && Ends(e.ts, |head| + 1 + |text|)
  {
    hide MarkCount, MarksBefore, At, Ends;
    WherePieces(head, text, tail);
    TwoPieces(values, rest);
    EndsAt(e.ts, |head| + 1 + |text|, tail);
    Plain([Keyword("WHERE")]);
    CountConcat(head, [Keyword("WHERE")]);
    var before := head + [Keyword("WHERE")];
    MarksAcross(e.ts, 0, before, |before|);
    CountIs(e.ts, before);
    AtIndex(e.ts, 0, before, |head|);
  }

  lemma {:induction false} Regroup(head: seq<Token>, text: seq<Token>, tail: seq<Token>)
    ensures var w := [Keyword("WHERE")];
      head + (w + text) + tail == (head + w) + text + tail == (head + w) + (text + tail)
  {
  }

  lemma {:induction false} DenotesAll(cs: seq<Condition>, row: Row)
    ensures Denote(All(cs), row) == DenoteAll(cs, row)
  {
  }

  lemma {:induction false} CountIs(ts: seq<Token>, before: seq<Token>)
    ensures MarksBefore(ts, 0) + MarksBefore(before, |before|) == MarkCount(before)
  {
  }

  lemma {:induction false} NoMarkListed(names: seq<string>)
    ensures MarkCount(Listed(names)) == 0
  {
    hide MarkCount;
    if names == [] { Plain([]); } else {
      var init, last := names[..|names| - 1], [Ident(names[|names| - 1])];
      var sep := if |names| == 1 then [] else [Comma];
      NoMarkListed(init);
      Plain(sep); Plain(last);
      CountConcat(Listed(init), sep);
      CountConcat(Listed(init) + sep, last);
    }
  }

  lemma {:induction false} NoMarkOrdered(orderings: seq<Ordering>)
    ensures MarkCount(Ordered(orderings)) == 0
  {
    hide MarkCount;
    if orderings == [] { Plain([]); } else {
      var init, o := orderings[..|orderings| - 1], orderings[|orderings| - 1];
      var sep := if |orderings| == 1 then [] else [Comma];
      var last := [Ident(o.field), Keyword(if o.ascending then "ASC" else "DESC")];
      NoMarkOrdered(init);
      Plain(sep); Plain(last);
      CountConcat(Ordered(init), sep);
      CountConcat(Ordered(init) + sep, last);
    }
  }

  lemma {:induction false} MarksAssigned(values: seq<(string, Value)>)
    ensures MarkCount(Assigned(values)) == |values|
  {
    hide MarkCount;
    if values == [] { Plain([]); } else {
      var init, v := values[..|values| - 1], values[|values| - 1];
      var sep := if |values| == 1 then [] else [Comma];
      MarksAssigned(init);
      Plain(sep);
      OneMark([Ident(v.0), Cmp(Equal)]);
      assert [Ident(v.0), Cmp(Equal)] + [Param] == [Ident(v.0), Cmp(Equal), Param];
      CountConcat(Assigned(init), sep);
      CountConcat(Assigned(init) + sep, [Ident(v.0), Cmp(Equal), Param]);
    }
  }

  lemma {:induction false} MarksOfHead(b: Builder)
    ensures MarkCount(Head(b).sql) == |Head(b).params|
  {
    hide MarkCount, Listed, Assigned, Marks;
    match b.operation
    case Select =>
      var list := if b.columns == [] then [Keyword("*")] else Listed(b.columns);
      NoMarkListed(b.columns);
      Plain([Keyword("*")]); Plain([Keyword("SELECT")]); Plain([Keyword("FROM"), Ident(b.table)]);
      CountConcat([Keyword("SELECT")], list);
      CountConcat([Keyword("SELECT")] + list, [Keyword("FROM"), Ident(b.table)]);
    case Insert =>
      var names := Listed(Names(b.values));
      var front, mid := [Keyword("INSERT INTO"), Ident(b.table), LParen], [RParen, Keyword("VALUES"), LParen];
      NoMarkListed(Names(b.values));
      MarksOfMarks(|b.values|);
      Plain(front); Plain(mid); Plain([RParen]);
      CountConcat(front, names);
      CountConcat(front + names, mid);
      CountConcat(front + names + mid, Marks(|b.values|));
      CountConcat(front + names + mid + Marks(|b.values|), [RParen]);
    case Update =>
      var front := [Keyword("UPDATE"), Ident(b.table), Keyword("SET")];
      MarksAssigned(b.values);
      Plain(front);
      CountConcat(front, Assigned(b.values));
    case Delete => Plain([Keyword("DELETE FROM"), Ident(b.table)]);
  }

  lemma {:induction false} MarksOfWhere(cs: seq<Condition>)
    requires WhereOk(cs)
    ensures MarkCount(WhereTokens(cs)) == |WhereParams(cs)|
  {
    hide MarkCount, Tokens, Params, WellFormed;
    if cs == [] { Plain([]); } else {
      Plain([Keyword("WHERE")]);
      MarksMatchParams(All(cs), false);
      CountConcat([Keyword("WHERE")], Tokens(All(cs), false));
    }
  }

  lemma {:induction false} MarksOfOrder(orderings: seq<Ordering>)
    ensures MarkCount(OrderTokens(orderings)) == 0
  {
    hide MarkCount;
    if orderings == [] { Plain([]); } else {
      NoMarkOrdered(orderings);
      Plain([Keyword("ORDER BY")]);
      CountConcat([Keyword("ORDER BY")], Ordered(orderings));
    }
  }

  /** Every built statement has exactly one placeholder per parameter. */
  lemma {:induction false} EveryMarkIsBound(b: Builder)
    requires Build(b).Some?
    ensures MarkCount(Build(b).value.sql) == |Build(b).value.params|
  {
    hide MarkCount, Head, WhereTokens, WhereParams, OrderTokens;
    MarksOfHead(b);
    if !b.operation.Insert? {
      MarksOfWhere(b.conditions);
      MarksOfOrder(b.orderings);
      CountConcat(Head(b).sql, WhereTokens(b.conditions));
      CountConcat(Head(b).sql + WhereTokens(b.conditions), OrderTokens(b.orderings));
    }
  }

  /** The WHERE clause of every built SELECT, UPDATE and DELETE means the conjunction of its conditions. */
  lemma {:induction false} BuiltWhereMeans(b: Builder, row: Row)
    requires Build(b).Some? && b.conditions != [] && Numeric(row)
    ensures !b.operation.Insert?
    ensures var s, w := Build(b).value, |Head(b).sql|;
      && w < |s.sql| && s.sql[w] == Keyword("WHERE")
      && Reads(ParseCondition(s.sql, w + 1), Env(s.sql, s.params, row), |s.sql| - |OrderTokens(b.orderings)|,
               DenoteAll(b.conditions, row))
  {
    hide MarkCount, Head, WhereTokens, WhereParams, Numeric, ParseCondition, Reads, DenoteAll;
    var s := Build(b).value;
    MarksOfHead(b);
    WhereParses(Env(s.sql, s.params, row), Head(b).sql, Head(b).params, b.conditions, OrderTokens(b.orderings));
  }

  /** The COUNT of a page carries the same parameters and the same predicate as its SELECT. */
  lemma {:induction false} CountMeansTheSame(b: Builder, row: Row)
    requires BuildPage(b).Some? && Numeric(row)
    ensures var p := BuildPage(b).value;
      && p.data.params == p.count.params && MarkCount(p.count.sql) == |p.count.params|
      && (b.conditions == [] ==> p.count.sql == CountHead(b))
      && (b.conditions != [] ==>
            var w, h := |CountHead(b)|, |Head(b).sql|;
            var counted, listed := ParseCondition(p.count.sql, w + 1), ParseCondition(p.data.sql, h + 1);
            && p.count.sql[w] == Keyword("WHERE") == p.data.sql[h]
            && counted.Some? && counted.value.next == |p.count.sql|
            && listed.Some? && listed.value.next == |p.data.sql| - |OrderTokens(b.orderings)|
            && Eval(counted.value.value, Env(p.count.sql, p.count.params, row))
               == Eval(listed.value.value, Env(p.data.sql, p.data.params, row)))
  {
    hide MarkCount, WhereTokens, WhereParams, Numeric, ParseCondition, DenoteAll, Eval;
    var p := BuildPage(b).value;
    Plain(CountHead(b));
    MarksOfWhere(b.conditions);
    CountConcat(CountHead(b), WhereTokens(b.conditions));
    assert [] + WhereParams(b.conditions) == WhereParams(b.conditions);
    if b.conditions == [] {
      NoWhere();
    } else {
      BuiltWhereMeans(b, row);
      var e := Env(p.count.sql, p.count.params, row);
      assert e.ts == CountHead(b) + WhereTokens(b.conditions) + [];
      WhereParses(e, CountHead(b), [], b.conditions, []);
    }
  }

  lemma {:induction false} NoWhere()
    ensures WhereTokens([]) == [] && WhereParams([]) == []
  {
  }

  // ------------------------------------------------- assignments and inserts

  lemma {:induction false} AssignedAt(values: seq<(string, Value)>, k: nat)
    requires k < |values|
    ensures |Assigned(values)| == 4 * |values| - 1
    ensures var i := 4 * k; Assigned(values)[i] == Ident(values[k].0) && Assigned(values)[i + 2] == Param
    ensures MarksBefore(Assigned(values), 4 * k + 2) == k
    decreases |values|
  {
    hide MarksBefore, Assigned, At;
    var n := |values| - 1;
    var init := values[..n];
    AssignedLength(init);
    LastAssigned(init, values[n]);
    assert values == init + [values[n]];
    var ts := Assigned(values);
    if k < n {
      AssignedAt(init, k);
      MarksAcross(ts, 0, Assigned(init), 4 * k + 2);
      Nothing(ts);
      AtIndex(ts, 0, Assigned(init), 4 * k);
      AtIndex(ts, 0, Assigned(init), 4 * k + 2);
    }
  }

  lemma {:induction false} AssignedLength(values: seq<(string, Value)>)
    ensures |Assigned(values)| == if values == [] then 0 else 4 * |values| - 1
  {
    if values != [] { AssignedLength(values[..|values| - 1]); }
  }

  lemma {:induction false} AssignedSnoc(init: seq<(string, Value)>, v: (string, Value))
    ensures Assigned(init + [v]) == Assigned(init) + ((if init == [] then [] else [Comma]) + [Ident(v.0), Cmp(Equal)])
      + [Param]
  {
    assert (init + [v])[..|init|] == init;
  }

  lemma {:induction false} LastAssigned(init: seq<(string, Value)>, v: (string, Value))
    requires |Assigned(init)| == if init == [] then 0 else 4 * |init| - 1
    ensures var ts, n := Assigned(init + [v]), 4 * |init|;
      && |ts| == n + 3 && At(ts, 0, Assigned(init))
      && ts[n] == Ident(v.0) && ts[n + 2] == Param && MarksBefore(ts, n + 2) == |init|
  {
    hide MarksBefore, MarkCount, Assigned, At;
    var ts, a := Assigned(init + [v]), Assigned(init);
    var sep := if init == [] then [] else [Comma];
    var mid := sep + [Ident(v.0), Cmp(Equal)];
    AssignedSnoc(init, v);
    AtPlaces(a, mid, [Param]);
    MarksAssigned(init);
    MarksAcross(ts, 0, a, |a|);
    CountIs(ts, a);
    Plain(mid);
    MarksAcross(ts, |a|, mid, |mid|);
    CountIs(mid, mid);
    Nothing(mid);
    AtIndex(ts, |a|, mid, |sep|);
    AtFirst(ts, |a| + |mid|, [Param]);
  }

  lemma {:induction false} UpdatePieces(b: Builder)
    requires Build(b).Some? && b.operation.Update?
    ensures At(Build(b).value.sql, 0, [Keyword("UPDATE"), Ident(b.table), Keyword("SET")])
    ensures At(Build(b).value.sql, 3, Assigned(b.values))
    ensures Head(b).sql == [Keyword("UPDATE"), Ident(b.table), Keyword("SET")] + Assigned(b.values)
    ensures Build(b).value.params == Bound(b.values) + WhereParams(b.conditions)
  {
    hide Assigned, WhereTokens, OrderTokens, WhereParams, Buildable, At;
    var front, text := [Keyword("UPDATE"), Ident(b.table), Keyword("SET")], Assigned(b.values);
    Associative(front, text, WhereTokens(b.conditions), OrderTokens(b.orderings));
    AtPlaces(front, text, WhereTokens(b.conditions) + OrderTokens(b.orderings));
  }

  /** UPDATE … SET: the k-th field is assigned the placeholder that binds the k-th value. */
  lemma {:induction false} UpdateBinds(b: Builder, k: nat)
    requires Build(b).Some? && b.operation.Update? && k < |b.values|
    ensures var s, i := Build(b).value, 3 + 4 * k;
      && i + 2 < |Head(b).sql| && i + 2 < |s.sql| && s.sql[i] == Ident(b.values[k].0) && s.sql[i + 2] == Param
      && MarksBefore(s.sql, i + 2) == k && k < |s.params| && s.params[k] == b.values[k].1
  {
    hide MarksBefore, MarkCount, Assigned, WhereTokens, WhereParams, Build, Head, At;
    UpdatePieces(b);
    SetBinds(Build(b).value.sql, [Keyword("UPDATE"), Ident(b.table), Keyword("SET")], b.values, k);
  }

  lemma {:induction false} SetBinds(ts: seq<Token>, front: seq<Token>, values: seq<(string, Value)>, k: nat)
    requires At(ts, 0, front) && |front| == 3 && Param !in front && At(ts, 3, Assigned(values)) && k < |values|
    ensures var i := 3 + 4 * k;
      && i + 2 < |ts| && i + 2 < 3 + |Assigned(values)|
      && ts[i] == Ident(values[k].0) && ts[i + 2] == Param && MarksBefore(ts, i + 2) == k
  {
    hide MarksBefore, MarkCount, Assigned, At;
    AssignedAt(values, k);
    Plain(front);
    MarksAcross(ts, 0, front, 3);
    CountIs(ts, front);
    MarksAcross(ts, 3, Assigned(values), 4 * k + 2);
    AtIndex(ts, 3, Assigned(values), 4 * k);
    AtIndex(ts, 3, Assigned(values), 4 * k + 2);
  }

  lemma {:induction false} Associative(a: seq<Token>, b: seq<Token>, c: seq<Token>, d: seq<Token>)
    ensures a + b + c + d == a + b + (c + d) == a + (b + (c + d))
  {
  }

  lemma {:induction false} Nothing(ts: seq<Token>)
    ensures MarksBefore(ts, 0) == 0
  {
  }

  lemma {:induction false} ListedAt(names: seq<string>, k: nat)
    requires k < |names|
    ensures |Listed(names)| == 2 * |names| - 1 && Listed(names)[2 * k] == Ident(names[k])
    decreases |names|
  {
    var n := |names| - 1;
    if n > 0 { ListedAt(names[..n], if k < n then k else 0); }
  }

  lemma {:induction false} MarksAt(n: nat, k: nat)
    requires k < n
    ensures |Marks(n)| == 2 * n - 1 && Marks(n)[2 * k] == Param && MarksBefore(Marks(n), 2 * k) == k
  {
    if n > 1 {
      MarksAt(n - 1, if k > 0 then k - 1 else 0);
      var ts := Marks(n);
      assert ts == [Param, Comma] + Marks(n - 1);
      if k > 0 {
        assert At(ts, 2, Marks(n - 1));
        assert ts[2 + 2 * (k - 1)] == Marks(n - 1)[2 * (k - 1)];
        MarksAcross(ts, 2, Marks(n - 1), 2 * (k - 1));
        assert MarksBefore(ts, 2) == 1 by { assert MarksBefore(ts, 1) == 1; }
      }
    }
  }

  /** INSERT: the k-th column and the k-th placeholder belong to the k-th value. */
  lemma {:induction false} InsertBinds(b: Builder, k: nat)
    requires Build(b).Some? && b.operation.Insert? && k < |b.values|
    ensures var s, i, j := Build(b).value, 3 + 2 * k, 2 * |b.values| + 5 + 2 * k;
      && j < |s.sql| && s.sql[i] == Ident(b.values[k].0) && s.sql[j] == Param
      && MarksBefore(s.sql, j) == k && k < |s.params| && s.params[k] == b.values[k].1
  {
    hide MarksBefore, Listed, Marks, Buildable, MarkCount;
    var n := |b.values|;
    var names := Listed(Names(b.values));
    var front, mid := [Keyword("INSERT INTO"), Ident(b.table), LParen], [RParen, Keyword("VALUES"), LParen];
    var ts := Head(b).sql;
    var before := front + names + mid;
    ListedAt(Names(b.values), k);
    MarksAt(n, k);
    assert ts == before + Marks(n) + [RParen];
    assert At(ts, 0, before) && At(ts, |before|, Marks(n));
    assert ts[3 + 2 * k] == names[2 * k] && ts[|before| + 2 * k] == Marks(n)[2 * k];
    NoMarkListed(Names(b.values));
    Plain(front); Plain(mid);
    CountConcat(front, names);
    CountConcat(front + names, mid);
    MarksAcross(ts, 0, before, |before|);
    CountIs(ts, before);
    MarksAcross(ts, |before|, Marks(n), 2 * k);
  }
}
