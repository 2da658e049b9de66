/**
  Which statements the builder refuses, said without its own checks: names
  character by character, condition trees node by node, and one rule per field
  of the builder.
*/
module BuilderRules {
  import opened Wrappers
  import opened SqlBuilder

  /** A character in its place: no control character, no dot before a dot, no star alone between dots or ends. */
  predicate CharOk(id: string, i: nat)
    requires i < |id|
  {
    && id[i] >= ' ' && (id[i] == '.' && i + 1 < |id| ==> id[i + 1] != '.')
    && (id[i] == '*' ==> (i > 0 && id[i - 1] != '.') || (i + 1 < |id| && id[i + 1] != '.'))
  }

  /** A name that does not begin or end with a dot, every character in its place. */
  predicate NameOk(id: string) {
    id != "" && id[0] != '.' && id[|id| - 1] != '.' && forall i :: 0 <= i < |id| ==> CharOk(id, i)
  }

  /** The same from position `b` on. */
  predicate OkFrom(id: string, b: nat) {
    b < |id| && id[b] != '.' && forall i :: b <= i < |id| ==> CharOk(id, i)
  }

  lemma {:induction false} PartEndIs(id: string, i: nat)
    requires i <= |id|
    ensures var e := PartEnd(id, i); (e < |id| ==> id[e] == '.') && forall k :: i <= k < e ==> id[k] != '.'
    decreases |id| - i
  {
    if i < |id| && id[i] != '.' { PartEndIs(id, i + 1); }
  }

  predicate PartOk(id: string, b: nat, e: nat)
    requires b <= e <= |id|
  {
    e > b && id[b..e] != "*" && forall i :: b <= i < e ==> id[i] >= ' '
  }

  /** A part between dots is well formed exactly when all its characters are in place. */
  lemma {:induction false} PartIs(id: string, b: nat, e: nat)
    requires b < e <= |id| && (b == 0 || id[b - 1] == '.') && (e == |id| || id[e] == '.')
    requires forall k :: b <= k < e ==> id[k] != '.'
    ensures PartOk(id, b, e) <==> forall i :: b <= i < e ==> CharOk(id, i)
  {
    assert id[b..e] == "*" <==> e == b + 1 && id[b] == '*';
    if PartOk(id, b, e) {
      forall i | b <= i < e ensures CharOk(id, i) {
        if i > b { assert id[i - 1] != '.'; } else if i + 1 < e { assert id[i + 1] != '.'; }
      }
    }
    if forall i :: b <= i < e ==> CharOk(id, i) {
      assert CharOk(id, b);
      forall i | b <= i < e ensures id[i] >= ' ' { assert CharOk(id, i); }
    }
  }

  lemma {:induction false} PartsOk(id: string, b: nat)
    requires b < |id| && id[|id| - 1] != '.' && (b == 0 || id[b - 1] == '.')
    ensures ValidParts(id, b) <==> OkFrom(id, b)
    decreases |id| - b
  {
    hide PartEnd, CharOk;
    var e := PartEnd(id, b);
    PartEndIs(id, b);
    if e > b { PartIs(id, b, e); }
    if e < |id| {
      PartsOk(id, e + 1);
      DotIs(id, e);
    }
  }

  lemma {:induction false} DotIs(id: string, e: nat)
    requires e + 1 < |id| && id[e] == '.'
    ensures CharOk(id, e) <==> id[e + 1] != '.'
  {
  }

  lemma {:induction false} NameIs(id: string)
    ensures ValidIdentifier(id) <==> NameOk(id)
  {
    hide ValidParts;
    if id != "" && id[|id| - 1] != '.' {
      PartsOk(id, 0);
      if OkFrom(id, 0) {
        forall i | 0 <= i < |id| ensures id[i] != '\0' { assert CharOk(id, i); }
      }
    }
  }

  // ------------------------------------------------------------- condition trees

  /** The tree and everything below it. */
  function Nodes(c: Condition): seq<Condition>
    decreases c, 1
  {
    [c] + match c
          case All(children) => NodesOf(children)
          case Any(children) => NodesOf(children)
          case Not(child) => Nodes(child)
          case _ => []
  }

  function NodesOf(cs: seq<Condition>): seq<Condition>
    decreases cs, 0
  {
    if cs == [] then [] else Nodes(cs[0]) + NodesOf(cs[1..])
  }

  /** One node on its own. */
  predicate NodeOk(c: Condition) {
    && !c.Invalid?
    && (c.Compare? || c.In? || c.NotIn? || c.Between? || c.IsNull? || c.IsNotNull? ==> NameOk(c.field))
    && (c.Compare? && c.value.Null? ==> c.op == Equal || c.op == NotEqual)
    && (c.Between? ==> c.lower != Null && c.upper != Null)
    && (c.All? || c.Any? ==> c.children != [])
  }

  lemma {:induction false} TreeIs(c: Condition)
    ensures WellFormed(c) <==> forall n <- Nodes(c) :: NodeOk(n)
    decreases c, 1
  {
    hide ValidIdentifier, NameOk;
    assert Nodes(c)[0] == c && c in Nodes(c);
    match c
    case All(children) => TreesAre(children); assert forall n <- NodesOf(children) :: n in Nodes(c);
    case Any(children) => TreesAre(children); assert forall n <- NodesOf(children) :: n in Nodes(c);
    case Not(child) => TreeIs(child); assert forall n <- Nodes(child) :: n in Nodes(c);
    case Invalid =>
    case _ =>
      NameIs(c.field);
      assert Nodes(c) == [c] && forall n <- Nodes(c) :: n == c;
  }

  lemma {:induction false} TreesAre(cs: seq<Condition>)
    ensures (forall c <- cs :: WellFormed(c)) <==> forall n <- NodesOf(cs) :: NodeOk(n)
    decreases cs, 0
  {
    hide WellFormed, NodeOk;
    if cs != [] {
      TreeIs(cs[0]);
      TreesAre(cs[1..]);
      assert cs == [cs[0]] + cs[1..];
      assert forall n <- Nodes(cs[0]) :: n in NodesOf(cs);
      assert forall n <- NodesOf(cs[1..]) :: n in NodesOf(cs);
    }
  }

  // ------------------------------------------------------------------ statements

  predicate AllDistinct(names: seq<string>) { forall j, k :: 0 <= j < k < |names| ==> names[j] != names[k] }

  /** What each field of the builder must satisfy for the statement to be built. */
  predicate Admissible(b: Builder) {
    var changes := b.operation.Update? || b.operation.Delete?;
    && !b.specificationError && NameOk(b.table)
    && (b.columns != [] ==> b.operation.Select?) && (forall name <- b.columns :: NameOk(name)) && AllDistinct(b.columns)
    && (b.values != [] <==> b.operation.Insert? || b.operation.Update?)
    && (forall v <- b.values :: NameOk(v.0)) && AllDistinct(Names(b.values))
    && (b.conditions != [] ==> !b.operation.Insert?) && (forall n <- NodesOf(b.conditions) :: NodeOk(n))
    && (b.orderings != [] ==> b.operation.Select?) && (forall o <- b.orderings :: NameOk(o.field))
    && (b.allowAllRows ==> changes) && (changes && b.conditions == [] ==> b.allowAllRows)
  }

  lemma {:induction false} UniqueIs(names: seq<string>)
    ensures UniqueFields(names) <==> (forall name <- names :: NameOk(name)) && AllDistinct(names)
  {
    hide ValidIdentifier, NameOk;
    forall i | 0 <= i < |names| ensures ValidIdentifier(names[i]) <==> NameOk(names[i]) { NameIs(names[i]); }
  }

  lemma {:induction false} ValuesNamed(values: seq<(string, Value)>)
    ensures (forall name <- Names(values) :: NameOk(name)) <==> forall v <- values :: NameOk(v.0)
  {
    hide NameOk;
    if forall name <- Names(values) :: NameOk(name) {
      forall v <- values ensures NameOk(v.0) {
        var i :| 0 <= i < |values| && values[i] == v;
        assert Names(values)[i] in Names(values);
      }
    }
  }

  lemma {:induction false} WhereIs(cs: seq<Condition>)
    ensures WhereOk(cs) <==> forall n <- NodesOf(cs) :: NodeOk(n)
  {
    hide NodeOk;
    TreesAre(cs);
    if cs == [] { assert NodesOf(cs) == []; }
  }

  /** A statement is built exactly when every field keeps its rule. */
  lemma {:induction false} BuiltIff(b: Builder)
    ensures Build(b).Some? <==> Admissible(b)
  {
    hide ValidIdentifier, NameOk, UniqueFields, Head, Names, WellFormed, NodeOk;
    NameIs(b.table);
    UniqueIs(Names(b.values));
    UniqueIs(b.columns);
    ValuesNamed(b.values);
    WhereIs(b.conditions);
    forall o <- b.orderings ensures ValidIdentifier(o.field) <==> NameOk(o.field) { NameIs(o.field); }
  }

  /** Text without WHERE changes every row, and only on request. */
  lemma {:induction false} NoWhereOnRequest(b: Builder)
    requires Build(b).Some? && (b.operation.Update? || b.operation.Delete?)
    ensures Keyword("WHERE") !in Build(b).value.sql ==> b.allowAllRows && b.conditions == []
  {
    hide Tokens, Head, OrderTokens, Buildable;
    BuiltIff(b);
    if b.conditions != [] {
      var w := WhereTokens(b.conditions);
      assert w[0] == Keyword("WHERE");
      assert w[0] in Head(b).sql + w + OrderTokens(b.orderings);
    }
  }
}
