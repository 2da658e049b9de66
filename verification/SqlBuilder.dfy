/**
  The SQL builder at token level: condition trees, the statements built from
  them, and the parameters collected along the way. Quoted identifiers are
  single tokens.
*/
module SqlBuilder {
  import opened Wrappers

  datatype Op = Equal | NotEqual | Less | LessOrEqual | Greater | GreaterOrEqual | Like

  datatype Value = Null | Known(v: int)

  datatype Condition =
    | Invalid
    | Compare(field: string, op: Op, value: Value)
    | In(field: string, values: seq<Value>)
    | NotIn(field: string, values: seq<Value>)
    | Between(field: string, lower: Value, upper: Value)
    | IsNull(field: string)
    | IsNotNull(field: string)
    | All(children: seq<Condition>)
    | Any(children: seq<Condition>)
    | Not(child: Condition)

  datatype Token =
    | Ident(name: string) | Cmp(op: Op) | Param | Num(n: int)
    | AND | OR | NOT | IS | NULL | IN | BETWEEN | LParen | RParen | Comma
    | Keyword(text: string)

  // ------------------------------------------------------------ identifiers

  function PartEnd(id: string, i: nat): (r: nat)
    requires i <= |id|
    ensures i <= r <= |id|
    decreases |id| - i
  {
    if i == |id| || id[i] == '.' then i else PartEnd(id, i + 1)
  }

  predicate ValidParts(id: string, begin: nat)
    decreases |id| - begin
  {
    begin >= |id| ||
    var end := PartEnd(id, begin);
    && end > begin && id[begin..end] != "*"
    && (forall i :: begin <= i < end ==> id[i] >= ' ')
    && ValidParts(id, end + 1)
  }

  predicate ValidIdentifier(id: string) {
    id != "" && '\0' !in id && ValidParts(id, 0) && id[|id| - 1] != '.'
  }

  // -------------------------------------------------------- renderCondition

  predicate WellFormed(c: Condition) {
    match c
    case Invalid => false
    case Compare(field, op, value) => ValidIdentifier(field) && (value.Null? ==> op.Equal? || op.NotEqual?)
    case In(field, _) => ValidIdentifier(field)
    case NotIn(field, _) => ValidIdentifier(field)
    case Between(field, lower, upper) => ValidIdentifier(field) && !lower.Null? && !upper.Null?
    case IsNull(field) => ValidIdentifier(field)
    case IsNotNull(field) => ValidIdentifier(field)
    case All(children) => children != [] && forall x <- children :: WellFormed(x)
    case Any(children) => children != [] && forall x <- children :: WellFormed(x)
    case Not(child) => WellFormed(child)
  }

  function Marks(n: nat): seq<Token> {
    if n == 0 then [] else if n == 1 then [Param] else [Param, Comma] + Marks(n - 1)
  }

  function ListTokens(field: string, negated: bool, n: nat): seq<Token> {
    if n == 0 then [Num(1), Cmp(Equal), Num(if negated then 1 else 0)]
    else (if negated then [Ident(field), NOT, IN, LParen] else [Ident(field), IN, LParen]) + Marks(n) + [RParen]
  }

  function Tokens(c: Condition, nested: bool): seq<Token>
    decreases c, 1
  {
    match c
    case Invalid => []
    case Compare(field, op, value) =>
      if value.Null? then (if op.Equal? then [Ident(field), IS, NULL] else [Ident(field), IS, NOT, NULL])
      else [Ident(field), Cmp(op), Param]
    case In(field, values) => ListTokens(field, false, |values|)
    case NotIn(field, values) => ListTokens(field, true, |values|)
    case Between(field, _, _) => [Ident(field), BETWEEN, Param, AND, Param]
    case IsNull(field) => [Ident(field), IS, NULL]
    case IsNotNull(field) => [Ident(field), IS, NOT, NULL]
    case All(children) => Wrap(Joined(children, AND), nested)
    case Any(children) => Wrap(Joined(children, OR), nested)
    case Not(child) => [NOT, LParen] + Tokens(child, false) + [RParen]
  }

  function Wrap(ts: seq<Token>, nested: bool): seq<Token> { if nested then [LParen] + ts + [RParen] else ts }

  function Joined(cs: seq<Condition>, sep: Token): seq<Token>
    decreases cs, 0
  {
    if cs == [] then [] else Tokens(cs[0], true) + Rest(cs[1..], sep)
  }

  /** The children after the first, each preceded by the separator. */
  function Rest(cs: seq<Condition>, sep: Token): seq<Token>
    decreases cs, 0
  {
    if cs == [] then [] else [sep] + Tokens(cs[0], true) + Rest(cs[1..], sep)
  }

  function Params(c: Condition): seq<Value>
    decreases c, 1
  {
    match c
    case Compare(_, _, value) => if value.Null? then [] else [value]
    case In(_, values) => values
    case NotIn(_, values) => values
    case Between(_, lower, upper) => [lower, upper]
    case All(children) => ParamsOf(children)
    case Any(children) => ParamsOf(children)
    case Not(child) => Params(child)
    case _ => []
  }

  function ParamsOf(cs: seq<Condition>): seq<Value>
    decreases cs, 0
  {
    if cs == [] then [] else Params(cs[0]) + ParamsOf(cs[1..])
  }

  /** appendWhere: the conditions joined as one top-level conjunction. */
  function WhereTokens(cs: seq<Condition>): seq<Token> {
    if cs == [] then [] else [Keyword("WHERE")] + Tokens(All(cs), false)
  }

  function WhereParams(cs: seq<Condition>): seq<Value> {
    if cs == [] then [] else Params(All(cs))
  }

  predicate WhereOk(cs: seq<Condition>) { cs == [] || WellFormed(All(cs)) }

  // -------------------------------------------------------------- statements

  datatype Operation = Select | Insert | Update | Delete

  datatype Ordering = Ordering(field: string, ascending: bool)

  datatype Builder = Builder(
    operation: Operation, table: string, sqlServer: bool, columns: seq<string>,
    values: seq<(string, Value)>, conditions: seq<Condition>, orderings: seq<Ordering>, allowAllRows: bool,
    specificationError: bool)

  datatype Statement = Statement(sql: seq<Token>, params: seq<Value>)

  predicate UniqueFields(names: seq<string>) {
    && (forall i :: 0 <= i < |names| ==> ValidIdentifier(names[i]))
    && (forall i, j :: 0 <= i < j < |names| ==> names[i] != names[j])
  }

  function Names(values: seq<(string, Value)>): seq<string> {
    seq(|values|, i requires 0 <= i < |values| => values[i].0)
  }

  function Listed(names: seq<string>): seq<Token> {
    if names == [] then []
    else Listed(names[..|names| - 1]) + (if |names| == 1 then [] else [Comma]) + [Ident(names[|names| - 1])]
  }

  function Assigned(values: seq<(string, Value)>): seq<Token> {
    if values == [] then []
    else Assigned(values[..|values| - 1]) + (if |values| == 1 then [] else [Comma])
         + [Ident(values[|values| - 1].0), Cmp(Equal), Param]
  }

  function Ordered(orderings: seq<Ordering>): seq<Token> {
    if orderings == [] then []
    else Ordered(orderings[..|orderings| - 1]) + (if |orderings| == 1 then [] else [Comma])
         + [Ident(orderings[|orderings| - 1].field),
           Keyword(if orderings[|orderings| - 1].ascending then "ASC" else "DESC")]
  }

  function OrderTokens(orderings: seq<Ordering>): seq<Token> {
    if orderings == [] then [] else [Keyword("ORDER BY")] + Ordered(orderings)
  }

  function Bound(values: seq<(string, Value)>): seq<Value> {
    seq(|values|, i requires 0 <= i < |values| => values[i].1)
  }

  predicate Buildable(b: Builder) {
    && !b.specificationError && ValidIdentifier(b.table) && UniqueFields(Names(b.values))
    && match b.operation
       case Select =>
         && b.values == [] && !b.allowAllRows && UniqueFields(b.columns) && WhereOk(b.conditions)
         && forall o <- b.orderings :: ValidIdentifier(o.field)
       case Insert => b.columns == [] && b.conditions == [] && b.orderings == [] && !b.allowAllRows && b.values != []
       case Update =>
         && b.columns == [] && b.orderings == [] && b.values != []
         && (b.conditions == [] ==> b.allowAllRows) && WhereOk(b.conditions)
       case Delete =>
         && b.columns == [] && b.values == [] && b.orderings == []
         && (b.conditions == [] ==> b.allowAllRows) && WhereOk(b.conditions)
  }

  /** Everything before the WHERE clause. */
  function Head(b: Builder): Statement {
    match b.operation
    case Select =>
      Statement([Keyword("SELECT")] + (if b.columns == [] then [Keyword("*")] else Listed(b.columns))
                + [Keyword("FROM"), Ident(b.table)], [])
    case Insert =>
      Statement([Keyword("INSERT INTO"), Ident(b.table), LParen] + Listed(Names(b.values))
                + [RParen, Keyword("VALUES"), LParen] + Marks(|b.values|) + [RParen], Bound(b.values))
    case Update =>
      Statement([Keyword("UPDATE"), Ident(b.table), Keyword("SET")] + Assigned(b.values), Bound(b.values))
    case Delete =>
      Statement([Keyword("DELETE FROM"), Ident(b.table)], [])
  }

  /** Builder::build. */
  function Build(b: Builder): Option<Statement> {
    if !Buildable(b) then None
    else if b.operation.Insert? then Some(Head(b))
    else Some(Statement(Head(b).sql + WhereTokens(b.conditions) + OrderTokens(b.orderings),
                        Head(b).params + WhereParams(b.conditions)))
  }

  datatype Page = Page(data: Statement, count: Statement)

  function CountHead(b: Builder): seq<Token> {
    [Keyword("SELECT"), Keyword(if b.sqlServer then "COUNT_BIG(*)" else "COUNT(*)"), Keyword("FROM"), Ident(b.table)]
  }

  /** Builder::buildPage: the SELECT and a COUNT over the same rows. */
  function BuildPage(b: Builder): Option<Page> {
    var built := Build(b);
    if built.None? || !b.operation.Select? || b.orderings == [] then None
    else Some(Page(built.value, Statement(CountHead(b) + WhereTokens(b.conditions), WhereParams(b.conditions))))
  }
}
