/**
  The builder as the program runs it: `renderCondition` appends to a text and a
  parameter list in place, and `build` loops over fields, columns and
  orderings, stopping at the first thing it rejects.
*/
module BuilderLoops {
  import opened Wrappers
  import opened SqlBuilder
  import R = BuilderRules

  lemma {:induction false} PartEndIs(id: string, begin: nat, i: nat)
    requires begin <= i <= |id| && forall k :: begin <= k < i ==> id[k] != '.'
    requires i == |id| || id[i] == '.'
    ensures PartEnd(id, begin) == i
    decreases i - begin
  {
    if begin < i { PartEndIs(id, begin + 1, i); }
  }

  /** validIdentifier. */
  method CheckIdentifier(id: string) returns (ok: bool)
    ensures ok == ValidIdentifier(id)
  {
    if id == "" || '\0' in id { return false; }
    var begin := 0;
    while begin < |id|
      invariant ValidParts(id, 0) == ValidParts(id, begin)
      decreases |id| - begin
    {
      var end := begin;
      while end < |id| && id[end] != '.'
        invariant begin <= end <= |id| && forall k :: begin <= k < end ==> id[k] != '.'
      {
        end := end + 1;
      }
      PartEndIs(id, begin, end);
      if end == begin || id[begin..end] == "*" { return false; }
      for i := begin to end
        invariant forall k :: begin <= k < i ==> id[k] >= ' '
      {
        if id[i] < ' ' { return false; }
      }
      begin := end + 1;
    }
    ok := id[|id| - 1] != '.';
  }

  /** The same rejection for a repeated or an invalid name, scanning with a set of names seen. */
  method CheckUnique(names: seq<string>) returns (ok: bool)
    ensures ok == UniqueFields(names)
  {
    var seen: set<string> := {};
    for i := 0 to |names|
      invariant seen == set k | 0 <= k < i :: names[k]
      invariant forall k :: 0 <= k < i ==> ValidIdentifier(names[k])
      invariant forall j, k :: 0 <= j < k < i ==> names[j] != names[k]
    {
      var valid := CheckIdentifier(names[i]);
      if !valid || names[i] in seen { return false; }
      seen := seen + {names[i]};
    }
    ok := true;
  }

  /** Text of `cs` with separators only between children. */
  function Sofar(cs: seq<Condition>, sep: Token): seq<Token> {
    if cs == [] then []
    else Sofar(cs[..|cs| - 1], sep) + (if |cs| == 1 then [] else [sep]) + Tokens(cs[|cs| - 1], true)
  }

  lemma {:induction false} SofarEmpty(sep: Token)
    ensures Sofar([], sep) == [] && ParamsOf([]) == []
  {
  }

  lemma {:induction false} SofarNext(cs: seq<Condition>, i: nat, sep: Token)
    requires i < |cs|
    ensures Sofar(cs[..i + 1], sep) == Sofar(cs[..i], sep) + (if i == 0 then [] else [sep]) + Tokens(cs[i], true)
    ensures ParamsOf(cs[..i + 1]) == ParamsOf(cs[..i]) + Params(cs[i])
  {
    assert cs[..i + 1][..i] == cs[..i];
    ParamsSnoc(cs[..i + 1]);
  }

  lemma {:induction false} RestSnoc(cs: seq<Condition>, sep: Token)
    requires cs != []
    ensures Rest(cs, sep) == Rest(cs[..|cs| - 1], sep) + [sep] + Tokens(cs[|cs| - 1], true)
    decreases |cs|
  {
    hide Tokens;
    if |cs| > 1 {
      var init, mid := cs[..|cs| - 1], cs[1..];
      RestSnoc(mid, sep);
      assert init[1..] == mid[..|mid| - 1] && init[0] == cs[0];
      assert mid[|mid| - 1] == cs[|cs| - 1];
    }
  }

  lemma {:induction false} SofarIsJoined(cs: seq<Condition>, sep: Token)
    ensures Sofar(cs, sep) == Joined(cs, sep)
    decreases |cs|
  {
    hide Tokens;
    if |cs| > 1 {
      var init := cs[..|cs| - 1];
      SofarIsJoined(init, sep);
      RestSnoc(cs[1..], sep);
      assert cs[1..][..|cs| - 2] == init[1..] && init[0] == cs[0];
    }
  }

  lemma {:induction false} ParamsSnoc(cs: seq<Condition>)
    requires cs != []
    ensures ParamsOf(cs) == ParamsOf(cs[..|cs| - 1]) + Params(cs[|cs| - 1])
    decreases |cs|
  {
    hide Params;
    if |cs| > 1 {
      var init := cs[..|cs| - 1];
      ParamsSnoc(cs[1..]);
      assert init[1..] == cs[1..][..|cs| - 2];
    }
  }

  lemma {:induction false} MarksSnoc(n: nat)
    requires n > 0
    ensures Marks(n + 1) == Marks(n) + [Comma, Param]
  {
    if n > 1 { MarksSnoc(n - 1); }
  }

  lemma {:induction false} OrderedNone()
    ensures Ordered([]) == []
  {
  }

  lemma {:induction false} OrderedNext(orderings: seq<Ordering>, i: nat)
    requires i < |orderings|
    ensures var o := orderings[i];
      Ordered(orderings[..i + 1]) == Ordered(orderings[..i]) + (if i == 0 then [] else [Comma])
        + [Ident(o.field), Keyword(if o.ascending then "ASC" else "DESC")]
  {
    assert orderings[..i + 1][..i] == orderings[..i];
  }

  class Renderer {
    var sql: seq<Token>
    var params: seq<Value>

    constructor (text: seq<Token>)
      ensures sql == text && params == []
    {
      sql, params := text, [];
    }

    method Emit(ts: seq<Token>)
      modifies this
      ensures sql == old(sql) + ts && params == old(params)
    {
      sql := sql + ts;
    }

    /** One `?` per value, separated by commas. */
    method EmitMarks(values: seq<Value>)
      modifies this
      ensures sql == old(sql) + Marks(|values|) && params == old(params) + values
    {
      for i := 0 to |values|
        invariant sql == old(sql) + Marks(i) && params == old(params) + values[..i]
      {
        if i > 0 { sql := sql + [Comma]; MarksSnoc(i); }
        sql := sql + [Param];
        params := params + [values[i]];
        assert values[..i + 1] == values[..i] + [values[i]];
      }
      assert values[..|values|] == values;
    }

    method RenderList(field: string, negated: bool, values: seq<Value>)
      modifies this
      ensures sql == old(sql) + ListTokens(field, negated, |values|) && params == old(params) + values
    {
      if values == [] {
        Emit([Num(1), Cmp(Equal), Num(if negated then 1 else 0)]);
      } else {
        Emit(if negated then [Ident(field), NOT, IN, LParen] else [Ident(field), IN, LParen]);
        EmitMarks(values);
        Emit([RParen]);
      }
    }

    /** renderCondition on the conditions that have no children. */
    method RenderAtom(c: Condition) returns (ok: bool)
      requires !c.All? && !c.Any? && !c.Not?
      modifies this
      ensures ok == WellFormed(c)
      ensures ok ==> sql == old(sql) + Tokens(c, true) && params == old(params) + Params(c)
    {
      if c.Invalid? { return false; }
      var valid := CheckIdentifier(c.field);
      if !valid { return false; }
      match c {
      case Compare(field, op, value) =>
        if value.Null? {
          if op.Equal? { Emit([Ident(field), IS, NULL]); }
          else if op.NotEqual? { Emit([Ident(field), IS, NOT, NULL]); }
          else { return false; }
        } else {
          Emit([Ident(field), Cmp(op), Param]);
          params := params + [value];
        }
      case In(field, values) => RenderList(field, false, values);
      case NotIn(field, values) => RenderList(field, true, values);
      case Between(field, lower, upper) =>
        if lower.Null? || upper.Null? { return false; }
        Emit([Ident(field), BETWEEN, Param, AND, Param]);
        params := params + [lower, upper];
      case IsNull(field) => Emit([Ident(field), IS, NULL]);
      case IsNotNull(field) => Emit([Ident(field), IS, NOT, NULL]);
      }
      ok := true;
    }

    /** renderCondition: succeeds exactly on well-formed trees and appends their text and values. */
    method Render(c: Condition, nested: bool) returns (ok: bool)
      modifies this
      ensures ok == WellFormed(c)
      ensures ok ==> sql == old(sql) + Tokens(c, nested) && params == old(params) + Params(c)
      decreases c, 1
    {
      hide ListTokens;
      match c
      case All(children) =>
        if children == [] { return false; }
        ok := RenderGroup(children, AND, nested);
      case Any(children) =>
        if children == [] { return false; }
        ok := RenderGroup(children, OR, nested);
      case Not(child) =>
        Emit([NOT, LParen]);
        ok := Render(child, false);
        if ok { Emit([RParen]); }
      case _ => ok := RenderAtom(c);
    }

    method RenderGroup(children: seq<Condition>, sep: Token, nested: bool) returns (ok: bool)
      modifies this
      ensures ok == forall x <- children :: WellFormed(x)
      ensures ok ==> sql == old(sql) + Wrap(Joined(children, sep), nested) && params == old(params) + ParamsOf(children)
      decreases children, 0
    {
      hide WellFormed, Tokens, Params, Sofar, ParamsOf, Joined;
      SofarEmpty(sep);
      if nested { Emit([LParen]); }
      ghost var start := sql;
      for i := 0 to |children|
        invariant forall k :: 0 <= k < i ==> WellFormed(children[k])
        invariant sql == start + Sofar(children[..i], sep) && params == old(params) + ParamsOf(children[..i])
      {
        SofarNext(children, i, sep);
        if i > 0 { Emit([sep]); }
        var rendered := Render(children[i], true);
        if !rendered { return false; }
      }
      assert children[..|children|] == children;
      SofarIsJoined(children, sep);
      if nested { Emit([RParen]); }
      ok := true;
    }

    /** appendWhere. */
    method AppendWhere(conditions: seq<Condition>) returns (ok: bool)
      modifies this
      ensures ok == WhereOk(conditions)
      ensures ok ==> sql == old(sql) + WhereTokens(conditions) && params == old(params) + WhereParams(conditions)
    {
      hide WellFormed, Tokens, Params;
      if conditions == [] { return true; }
      Emit([Keyword("WHERE")]);
      ok := Render(All(conditions), false);
    }

    method AppendNames(names: seq<string>)
      modifies this
      ensures sql == old(sql) + Listed(names) && params == old(params)
    {
      for i := 0 to |names|
        invariant sql == old(sql) + Listed(names[..i]) && params == old(params)
      {
        assert names[..i + 1][..i] == names[..i];
        if i > 0 { Emit([Comma]); }
        Emit([Ident(names[i])]);
      }
      assert names[..|names|] == names;
    }

    method AppendAssignments(values: seq<(string, Value)>)
      modifies this
      ensures sql == old(sql) + Assigned(values) && params == old(params) + Bound(values)
    {
      for i := 0 to |values|
        invariant sql == old(sql) + Assigned(values[..i]) && params == old(params) + Bound(values)[..i]
      {
        assert values[..i + 1][..i] == values[..i];
        if i > 0 { Emit([Comma]); }
        Emit([Ident(values[i].0), Cmp(Equal), Param]);
        params := params + [values[i].1];
        assert Bound(values)[..i + 1] == Bound(values)[..i] + [values[i].1];
      }
      assert values[..|values|] == values;
      assert Bound(values)[..|values|] == Bound(values);
    }

    method AppendOrder(orderings: seq<Ordering>) returns (ok: bool)
      modifies this
      ensures ok == forall o <- orderings :: ValidIdentifier(o.field)
      ensures ok ==> sql == old(sql) + OrderTokens(orderings) && params == old(params)
    {
      hide Ordered, ValidIdentifier;
      if orderings == [] { return true; }
      Emit([Keyword("ORDER BY")]);
      ghost var start := sql;
      OrderedNone();
      for i := 0 to |orderings|
        invariant forall k :: 0 <= k < i ==> ValidIdentifier(orderings[k].field)
        invariant sql == start + Ordered(orderings[..i]) && params == old(params)
      {
        var valid := CheckIdentifier(orderings[i].field);
        if !valid { return false; }
        OrderedNext(orderings, i);
        if i > 0 { Emit([Comma]); }
        Emit([Ident(orderings[i].field), Keyword(if orderings[i].ascending then "ASC" else "DESC")]);
      }
      assert orderings[..|orderings|] == orderings;
      ok := true;
    }
  }

  method BuildSelect(b: Builder) returns (r: Option<Statement>)
    requires b.operation.Select? && !b.specificationError && ValidIdentifier(b.table) && UniqueFields(Names(b.values))
    ensures r == Build(b)
  {
    hide ValidIdentifier, WhereOk, WhereTokens, WhereParams, OrderTokens, Listed, UniqueFields;
    if b.values != [] || b.allowAllRows { return None; }
    var out := new Renderer([Keyword("SELECT")]);
    var unique := CheckUnique(b.columns);
    if !unique { return None; }
    if b.columns == [] { out.Emit([Keyword("*")]); } else { out.AppendNames(b.columns); }
    out.Emit([Keyword("FROM"), Ident(b.table)]);
    assert out.sql == Head(b).sql;
    var ok := out.AppendWhere(b.conditions);
    if !ok { return None; }
    ok := out.AppendOrder(b.orderings);
    if !ok { return None; }
    r := Some(Statement(out.sql, out.params));
  }

  method BuildUpdate(b: Builder) returns (r: Option<Statement>)
    requires b.operation.Update? && !b.specificationError && ValidIdentifier(b.table) && UniqueFields(Names(b.values))
    ensures r == Build(b)
  {
    hide ValidIdentifier, WhereOk, WhereTokens, WhereParams, Assigned, UniqueFields;
    if b.columns != [] || b.orderings != [] || b.values == []
      || (b.conditions == [] && !b.allowAllRows) { return None; }
    var out := new Renderer([Keyword("UPDATE"), Ident(b.table), Keyword("SET")]);
    out.AppendAssignments(b.values);
    var ok := out.AppendWhere(b.conditions);
    if !ok { return None; }
    Unordered(Head(b).sql + WhereTokens(b.conditions));
    assert out.params == Head(b).params + WhereParams(b.conditions);
    assert out.sql == Head(b).sql + WhereTokens(b.conditions) + OrderTokens(b.orderings);
    r := Some(Statement(out.sql, out.params));
  }

  lemma {:induction false} Unordered(ts: seq<Token>)
    ensures ts + OrderTokens([]) == ts
  {
  }

  /** Builder::build: the statement of the specification, or nothing; built exactly when every field keeps its rule,
      and without WHERE only what may change every row. */
  method BuildStatement(b: Builder) returns (r: Option<Statement>)
    ensures r == Build(b)
    ensures r.Some? <==> R.Admissible(b)
    ensures r.Some? && (b.operation.Update? || b.operation.Delete?) && Keyword("WHERE") !in r.value.sql ==>
      b.allowAllRows
  {
    R.BuiltIff(b);
    if R.Admissible(b) && (b.operation.Update? || b.operation.Delete?) { R.NoWhereOnRequest(b); }
    r := Assemble(b);
  }

  method Assemble(b: Builder) returns (r: Option<Statement>)
    ensures r == Build(b)
  {
    hide ValidIdentifier, WhereOk, WhereTokens, WhereParams, Assigned, UniqueFields, Listed, Marks;
    if b.specificationError { return None; }
    var valid := CheckIdentifier(b.table);
    if !valid { return None; }
    var unique := CheckUnique(Names(b.values));
    if !unique { return None; }
    match b.operation
    case Select => r := BuildSelect(b);
    case Update => r := BuildUpdate(b);
    case Insert =>
      if b.columns != [] || b.conditions != [] || b.orderings != [] || b.allowAllRows || b.values == [] { return None; }
      var out := new Renderer([Keyword("INSERT INTO"), Ident(b.table), LParen]);
      out.AppendNames(Names(b.values));
      out.Emit([RParen, Keyword("VALUES"), LParen]);
      out.EmitMarks(Bound(b.values));
      out.Emit([RParen]);
      assert out.sql == Head(b).sql && out.params == Head(b).params;
      r := Some(Statement(out.sql, out.params));
    case Delete =>
      if b.columns != [] || b.values != [] || b.orderings != []
        || (b.conditions == [] && !b.allowAllRows) { return None; }
      var out := new Renderer([Keyword("DELETE FROM"), Ident(b.table)]);
      var ok := out.AppendWhere(b.conditions);
      if !ok { return None; }
      Unordered(Head(b).sql + WhereTokens(b.conditions));
      assert out.params == Head(b).params + WhereParams(b.conditions);
      r := Some(Statement(out.sql, out.params));
  }

  /** Builder::buildPage. */
  method BuildPageQuery(b: Builder) returns (r: Option<Page>)
    ensures r == BuildPage(b)
    ensures r.Some? <==> R.Admissible(b) && b.operation.Select? && b.orderings != []
  {
    hide WhereOk, WhereTokens, WhereParams;
    var built := BuildStatement(b);
    if built.None? || !b.operation.Select? || b.orderings == [] { return None; }
    var out := new Renderer(CountHead(b));
    var ok := out.AppendWhere(b.conditions);
    if !ok { return None; }
    assert out.params == WhereParams(b.conditions);
    r := Some(Page(built.value, Statement(out.sql, out.params)));
  }
}
