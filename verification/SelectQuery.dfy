/**
 * `buildSelectSqlAndSetParams`: a tree of selects, joins, common table expressions and set operations as one SQL
 * text and one list of values, and when the two belong together.
 */
module SelectQuery {
  import opened Wrappers
  import opened Placeholders
  import opened Predicate
  import opened PredicateSql
  import Decimal

  datatype SetType = UNION | UNION_ALL | INTERSECT | INTERSECT_ALL | EXCEPT | EXCEPT_ALL
  datatype JoinType = INNER | LEFT | RIGHT | FULL | CROSS
  datatype Sorting = ASC | DESC

  /** The main model of a query: its table and its columns. */
  datatype Model = Model(tableName: string, columns: seq<string>)

  /** A common table expression is held rendered. */
  datatype Cte = Cte(name: string, sql: string, params: seq<DbValue>, recursive: bool)

  datatype Join = Join(tableName: string, tableAlias: string, joinType: JoinType, condition: Predicate)

  datatype SetOperation = SetOperation(kind: SetType, left: Query, right: Query)

  datatype Query = Query(
    ctes: seq<Cte>,
    hasRecursive: bool,
    setOperation: Option<SetOperation>,
    distinct: bool,
    columns: seq<string>,
    tableName: string,
    tableAlias: Option<string>,
    joins: seq<Join>,
    condition: Option<Predicate>,
    groupBy: seq<string>,
    having: Option<Predicate>,
    orderBy: seq<(string, Sorting)>,
    limit: Option<nat>,
    offset: Option<nat>)

  /** The text of a query and the values for its placeholders, as handed to the database. */
  datatype Statement = Statement(sql: string, params: seq<DbValue>)

  // ---------------------------------------------------------------- text

  function SetText(kind: SetType): string {
    match kind
    case UNION => " UNION "
    case UNION_ALL => " UNION ALL "
    case INTERSECT => " INTERSECT "
    case INTERSECT_ALL => " INTERSECT ALL "
    case EXCEPT => " EXCEPT "
    case EXCEPT_ALL => " EXCEPT ALL "
  }

  function JoinText(t: JoinType): string {
    match t
    case INNER => " JOIN "
    case LEFT => " LEFT JOIN "
    case RIGHT => " RIGHT JOIN "
    case FULL => " FULL JOIN "
    case CROSS => " CROSS JOIN "
  }

  function Commas(xs: seq<string>): string {
    if xs == [] then ""
    else if |xs| == 1 then xs[0]
    else Commas(xs[..|xs| - 1]) + ", " + xs[|xs| - 1]
  }

  function Alias(q: Query): string { if q.tableAlias.Some? then q.tableAlias.value else "a" }

  /** The columns asked for; with none named, those of the main model. */
  function SelectedColumns(m: Model, q: Query): seq<string> {
    if q.columns != [] then q.columns
    else seq(|m.columns|, i requires 0 <= i < |m.columns| => Alias(q) + "." + m.columns[i])
  }

  function SelectText(m: Model, q: Query): string {
    " SELECT " + (if q.distinct then " DISTINCT " else "") + Commas(SelectedColumns(m, q))
    + " FROM " + q.tableName + " AS " + Alias(q)
  }

  function OrderItem(o: (string, Sorting)): string { o.0 + if o.1.DESC? then " DESC" else "" }

  function OrderItems(orderBy: seq<(string, Sorting)>): seq<string> {
    seq(|orderBy|, i requires 0 <= i < |orderBy| => OrderItem(orderBy[i]))
  }

  function OrderText(orderBy: seq<(string, Sorting)>): string {
    if orderBy == [] then "" else " ORDER BY " + Commas(OrderItems(orderBy))
  }

  function CountText(word: string, n: Option<nat>): string {
    if n.Some? then word + Decimal.ToString(n.value) else ""
  }

  /** The limit of the call, such as 1 for `first`, goes before the query's own. */
  function TailText(q: Query, limit: Option<nat>): string {
    OrderText(q.orderBy) + CountText(" LIMIT ", if limit.Some? then limit else q.limit) + CountText(" OFFSET ", q.offset) + " "
  }

  function CteHead(first: bool, hasRecursive: bool, name: string): string {
    (if first then "WITH " else " , ") + (if first && hasRecursive then " RECURSIVE " else "") + name + " AS ( "
  }

  function JoinHead(j: Join): string { JoinText(j.joinType) + j.tableName + " AS " + j.tableAlias + " ON " }

  function SubName(depth: nat, side: string): string { ") AS sub_" + Decimal.ToString(depth) + side }

  // ---------------------------------------------------------------- fragments

  function CteFragments(ctes: seq<Cte>, hasRecursive: bool): seq<Fragment> {
    if ctes == [] then []
    else
      var cte := ctes[|ctes| - 1];
      CteFragments(ctes[..|ctes| - 1], hasRecursive)
      + [Lit(CteHead(|ctes| == 1, hasRecursive, cte.name)), Slots(cte.sql, cte.params), Lit(" ) ")]
  }

  predicate JoinsRender(joins: seq<Join>) {
    forall i :: 0 <= i < |joins| ==> Constructed(joins[i].condition) && Renders(joins[i].condition)
  }

  function JoinFragments(joins: seq<Join>): seq<Fragment>
    requires JoinsRender(joins)
  {
    if joins == [] then []
    else
      var j := joins[|joins| - 1];
      JoinFragments(joins[..|joins| - 1]) + ([Lit(JoinHead(j))] + Fragments(j.condition))
  }

  predicate OptionRenders(p: Option<Predicate>) { p.Some? ==> Constructed(p.value) && Renders(p.value) }

  function ClauseFragments(word: string, p: Option<Predicate>): seq<Fragment>
    requires OptionRenders(p)
  {
    if p.Some? then [Lit(word)] + Fragments(p.value) else []
  }

  function GroupByFragments(groupBy: seq<string>, having: Option<Predicate>): seq<Fragment>
    requires groupBy != [] ==> OptionRenders(having)
  {
    if groupBy == [] then [] else [Lit(" GROUP BY " + Commas(groupBy))] + ClauseFragments(" HAVING ", having)
  }

  /** Predicates hold what their constructors put there. */
  predicate WellFormed(q: Query) {
    && (forall i :: 0 <= i < |q.joins| ==> Constructed(q.joins[i].condition))
    && (q.condition.Some? ==> Constructed(q.condition.value))
    && (q.having.Some? ==> Constructed(q.having.value))
    && (q.setOperation.Some? ==> WellFormed(q.setOperation.value.left) && WellFormed(q.setOperation.value.right))
  }

  /** Neither clause that rendering refuses is used, and every predicate it reaches renders. */
  predicate Builds(m: Model, q: Query)
    requires WellFormed(q)
  {
    if q.setOperation.Some? then
      && q.groupBy == [] && q.having.None?
      && Builds(m, q.setOperation.value.left) && Builds(m, q.setOperation.value.right)
    else
      && (q.columns != [] || q.tableName == m.tableName)
      && JoinsRender(q.joins) && OptionRenders(q.condition) && (q.groupBy != [] ==> OptionRenders(q.having))
  }

  function SelectFragments(m: Model, q: Query): seq<Fragment>
    requires WellFormed(q) && q.setOperation.None? && Builds(m, q)
  {
    [Lit(SelectText(m, q))] + JoinFragments(q.joins) + ClauseFragments(" WHERE ", q.condition) + GroupByFragments(q.groupBy, q.having)
  }

  function Wrapped(wrap: bool, fs: seq<Fragment>, depth: nat, side: string): seq<Fragment> {
    if wrap then [Lit(" SELECT * FROM ( ")] + fs + [Lit(SubName(depth, side))] else fs
  }

  /** The text of a query with, next to each placeholder, the value its author meant for it. */
  function QueryFragments(m: Model, q: Query, depth: nat, limit: Option<nat>): seq<Fragment>
    requires WellFormed(q) && Builds(m, q)
    decreases q, 1
  {
    CteFragments(q.ctes, q.hasRecursive)
    + (if q.setOperation.Some? then SetFragments(m, q, depth) else SelectFragments(m, q))
    + [Lit(TailText(q, limit))]
  }

  /** An operand that is itself a set operation becomes a named subquery. */
  function OperandFragments(m: Model, q: Query, depth: nat, side: string): seq<Fragment>
    requires WellFormed(q) && Builds(m, q)
    decreases q, 2
  {
    Wrapped(q.setOperation.Some?, QueryFragments(m, q, depth + 1, None), depth, side)
  }

  function SetFragments(m: Model, q: Query, depth: nat): seq<Fragment>
    requires WellFormed(q) && Builds(m, q) && q.setOperation.Some?
    decreases q, 0
  {
    var op := q.setOperation.value;
    OperandFragments(m, op.left, depth, "_0") + [Lit(SetText(op.kind))] + OperandFragments(m, op.right, depth, "_1")
  }

  /** The values handed over: a set operation starts its list from its operands', and forgets those of its CTEs. */
  function QueryParams(m: Model, q: Query): seq<DbValue>
    requires WellFormed(q) && Builds(m, q)
  {
    if q.setOperation.Some? then QueryParams(m, q.setOperation.value.left) + QueryParams(m, q.setOperation.value.right)
    else Params(CteFragments(q.ctes, q.hasRecursive)) + Params(SelectFragments(m, q))
  }

  // ---------------------------------------------------------------- building

  method BuildCtes(ctes: seq<Cte>, hasRecursive: bool, out: ParamList) returns (s: string)
    modifies out
    ensures s == Sql(CteFragments(ctes, hasRecursive))
    ensures out.values == old(out.values) + Params(CteFragments(ctes, hasRecursive))
  {
    s := "";
    var i := 0;
    while i < |ctes|
      invariant 0 <= i <= |ctes|
      invariant s == Sql(CteFragments(ctes[..i], hasRecursive))
      invariant out.values == old(out.values) + Params(CteFragments(ctes[..i], hasRecursive))
    {
      var cte := ctes[i];
      CteStep(ctes, i, hasRecursive, old(out.values));
      s := s + (CteHead(i == 0, hasRecursive, cte.name) + cte.sql + " ) ");
      out.Append(cte.params);
      i := i + 1;
    }
    assert ctes[..i] == ctes;
  }

  lemma CteStep(ctes: seq<Cte>, i: nat, hasRecursive: bool, v: seq<DbValue>)
    requires i < |ctes|
    ensures var before, after := CteFragments(ctes[..i], hasRecursive), CteFragments(ctes[..i + 1], hasRecursive);
      && Sql(after) == Sql(before) + (CteHead(i == 0, hasRecursive, ctes[i].name) + ctes[i].sql + " ) ")
      && v + Params(before) + ctes[i].params == v + Params(after)
  {
    assert ctes[..i + 1][..i] == ctes[..i];
    CteSql(CteFragments(ctes[..i], hasRecursive), CteHead(i == 0, hasRecursive, ctes[i].name), ctes[i].sql, ctes[i].params);
    Regroup(v, Params(CteFragments(ctes[..i], hasRecursive)), ctes[i].params);
  }

  lemma CteSql(before: seq<Fragment>, head: string, sql: string, params: seq<DbValue>)
    ensures var fs := before + [Lit(head), Slots(sql, params), Lit(" ) ")];
      Sql(fs) == Sql(before) + (head + sql + " ) ") && Params(fs) == Params(before) + params
  {
    Three(Lit(head), Slots(sql, params), Lit(" ) "));
    FragmentsConcat(before, [Lit(head), Slots(sql, params), Lit(" ) ")]);
    assert [] + params + [] == params;
  }

  method JoinWithCommas(xs: seq<string>) returns (s: string)
    ensures s == Commas(xs)
  {
    if xs == [] { return ""; }
    s := xs[0];
    assert xs[..1] == [xs[0]];
    var i := 1;
    while i < |xs|
      invariant 1 <= i <= |xs|
      invariant s == Commas(xs[..i])
    {
      assert xs[..i + 1][..i] == xs[..i];
      s := s + ", " + xs[i];
      i := i + 1;
    }
    assert xs[..i] == xs;
  }

  method BuildJoins(joins: seq<Join>, out: ParamList) returns (r: Option<string>)
    requires forall i :: 0 <= i < |joins| ==> Constructed(joins[i].condition)
    modifies out
    ensures r.Some? <==> JoinsRender(joins)
    ensures r.Some? ==> r.value == Sql(JoinFragments(joins)) && out.values == old(out.values) + Params(JoinFragments(joins))
  {
    var s := "";
    var i := 0;
    while i < |joins|
      invariant 0 <= i <= |joins|
      invariant JoinsRender(joins[..i])
      invariant s == Sql(JoinFragments(joins[..i])) && out.values == old(out.values) + Params(JoinFragments(joins[..i]))
    {
      var j := joins[i];
      var on := Resolve(j.condition, out);
      if on.None? { return None; }
      JoinStep(joins, i);
      JoinSql(JoinFragments(joins[..i]), JoinHead(j), Fragments(j.condition), old(out.values));
      s := s + (JoinHead(j) + on.value);
      i := i + 1;
    }
    assert joins[..i] == joins;
    return Some(s);
  }

  lemma JoinStep(joins: seq<Join>, i: nat)
    requires i < |joins| && JoinsRender(joins[..i]) && Constructed(joins[i].condition) && Renders(joins[i].condition)
    ensures JoinsRender(joins[..i + 1])
    ensures JoinFragments(joins[..i + 1]) == JoinFragments(joins[..i]) + ([Lit(JoinHead(joins[i]))] + Fragments(joins[i].condition))
  {
    assert joins[..i + 1][..i] == joins[..i];
    assert forall k :: 0 <= k < i ==> joins[..i][k] == joins[k];
  }

  lemma JoinSql(before: seq<Fragment>, head: string, on: seq<Fragment>, v: seq<DbValue>)
    ensures var fs := before + ([Lit(head)] + on);
      Sql(fs) == Sql(before) + (head + Sql(on)) && v + Params(before) + Params(on) == v + Params(fs)
  {
    Cons(Lit(head), on);
    FragmentsConcat(before, [Lit(head)] + on);
    Regroup(v, Params(before), Params(on));
  }

  method BuildClause(word: string, p: Option<Predicate>, out: ParamList) returns (r: Option<string>)
    requires p.Some? ==> Constructed(p.value)
    modifies out
    ensures r.Some? <==> OptionRenders(p)
    ensures r.Some? ==> r.value == Sql(ClauseFragments(word, p)) && out.values == old(out.values) + Params(ClauseFragments(word, p))
  {
    if p.None? { return Some(""); }
    var s := Resolve(p.value, out);
    if s.None? { return None; }
    Cons(Lit(word), Fragments(p.value));
    return Some(word + s.value);
  }

  method BuildGroupBy(groupBy: seq<string>, having: Option<Predicate>, out: ParamList) returns (r: Option<string>)
    requires having.Some? ==> Constructed(having.value)
    modifies out
    ensures r.Some? <==> (groupBy != [] ==> OptionRenders(having))
    ensures r.Some? ==> r.value == Sql(GroupByFragments(groupBy, having)) && out.values == old(out.values) + Params(GroupByFragments(groupBy, having))
  {
    if groupBy == [] { return Some(""); }
    var list := JoinWithCommas(groupBy);
    var rest := BuildClause(" HAVING ", having, out);
    if rest.None? { return None; }
    Cons(Lit(" GROUP BY " + list), ClauseFragments(" HAVING ", having));
    return Some(" GROUP BY " + list + rest.value);
  }

  method BuildColumns(m: Model, q: Query) returns (s: string)
    ensures s == Commas(SelectedColumns(m, q))
  {
    if q.columns != [] {
      s := JoinWithCommas(q.columns);
      return;
    }
    ghost var all := SelectedColumns(m, q);
    s := "";
    var i := 0;
    while i < |m.columns|
      invariant 0 <= i <= |m.columns|
      invariant s == Commas(all[..i])
    {
      assert all[..i + 1][..i] == all[..i];
      if i > 0 { s := s + ", "; }
      s := s + (Alias(q) + "." + m.columns[i]);
      i := i + 1;
    }
    assert all[..i] == all;
  }

  method BuildSelect(m: Model, q: Query, out: ParamList) returns (r: Option<string>)
    requires WellFormed(q) && q.setOperation.None?
    modifies out
    ensures r.Some? <==> Builds(m, q)
    ensures r.Some? ==> r.value == Sql(SelectFragments(m, q)) && out.values == old(out.values) + Params(SelectFragments(m, q))
  {
    if q.columns == [] && q.tableName != m.tableName { return None; }
    var columns := BuildColumns(m, q);
    var head := " SELECT " + (if q.distinct then " DISTINCT " else "") + columns + " FROM " + q.tableName + " AS " + Alias(q);
    ghost var v0 := out.values;
    var joins := BuildJoins(q.joins, out);
    if joins.None? { return None; }
    ghost var v1 := out.values;
    var condition := BuildClause(" WHERE ", q.condition, out);
    if condition.None? { return None; }
    var group := BuildGroupBy(q.groupBy, q.having, out);
    if group.None? { return None; }
    SelectSql(SelectText(m, q), JoinFragments(q.joins), ClauseFragments(" WHERE ", q.condition), GroupByFragments(q.groupBy, q.having), v0);
    return Some(head + joins.value + condition.value + group.value);
  }

  lemma SelectSql(head: string, joins: seq<Fragment>, condition: seq<Fragment>, group: seq<Fragment>, v: seq<DbValue>)
    ensures var fs := [Lit(head)] + joins + condition + group;
      && Sql(fs) == head + Sql(joins) + Sql(condition) + Sql(group)
      && v + Params(joins) + Params(condition) + Params(group) == v + Params(fs)
  {
    Cons(Lit(head), joins);
    FragmentsConcat([Lit(head)] + joins, condition);
    FragmentsConcat([Lit(head)] + joins + condition, group);
    Regroup(v, Params(joins), Params(condition));
    Regroup(v, Params(joins) + Params(condition), Params(group));
  }

  method BuildOrderBy(orderBy: seq<(string, Sorting)>) returns (s: string)
    ensures s == OrderText(orderBy)
  {
    if orderBy == [] { return ""; }
    ghost var items := OrderItems(orderBy);
    s := " ORDER BY " + orderBy[0].0;
    if orderBy[0].1.DESC? { s := s + " DESC"; }
    assert items[..1] == [OrderItem(orderBy[0])];
    assert s == " ORDER BY " + Commas(items[..1]);
    var i := 1;
    while i < |orderBy|
      invariant 1 <= i <= |orderBy|
      invariant s == " ORDER BY " + Commas(items[..i])
    {
      assert items[..i + 1][..i] == items[..i];
      s := s + (", " + orderBy[i].0);
      if orderBy[i].1.DESC? { s := s + " DESC"; }
      assert s == " ORDER BY " + (Commas(items[..i]) + ", " + OrderItem(orderBy[i]));
      i := i + 1;
    }
    assert items[..i] == items;
  }

  method BuildTail(q: Query, limit: Option<nat>) returns (s: string)
    ensures s == TailText(q, limit)
  {
    s := BuildOrderBy(q.orderBy);
    if limit.Some? {
      s := s + (" LIMIT " + Decimal.ToString(limit.value));
    } else if q.limit.Some? {
      s := s + (" LIMIT " + Decimal.ToString(q.limit.value));
    }
    if q.offset.Some? { s := s + (" OFFSET " + Decimal.ToString(q.offset.value)); }
    s := s + " ";
  }

  /** `buildSelectSqlAndSetParams`; nothing is returned where it throws. */
  method Build(m: Model, q: Query, depth: nat, limit: Option<nat>) returns (r: Option<Statement>)
    requires WellFormed(q)
    ensures r.Some? <==> Builds(m, q)
    ensures r.Some? ==> r.value == Statement(Sql(QueryFragments(m, q, depth, limit)), QueryParams(m, q))
    decreases q, 1
  {
    var out := new ParamList();
    var ctes := BuildCtes(q.ctes, q.hasRecursive, out);
    assert out.values == Params(CteFragments(q.ctes, q.hasRecursive));
    var tail := BuildTail(q, limit);
    if q.setOperation.None? {
      var s := BuildSelect(m, q, out);
      if s.None? { return None; }
      TailSql(CteFragments(q.ctes, q.hasRecursive), SelectFragments(m, q), tail);
      assert out.values == QueryParams(m, q);
      assert ctes + s.value + tail == Sql(QueryFragments(m, q, depth, limit));
      return Some(Statement(ctes + s.value + tail, out.values));
    }
    var s := BuildSet(m, q, depth);
    if s.None? { return None; }
    TailSql(CteFragments(q.ctes, q.hasRecursive), SetFragments(m, q, depth), tail);
    return Some(Statement(ctes + s.value.sql + tail, s.value.params));
  }

  /** The operands; their values replace what has been collected so far. */
  method BuildSet(m: Model, q: Query, depth: nat) returns (r: Option<Statement>)
    requires WellFormed(q) && q.setOperation.Some?
    ensures r.Some? <==> Builds(m, q)
    ensures r.Some? ==> r.value == Statement(Sql(SetFragments(m, q, depth)), QueryParams(m, q))
    decreases q, 0
  {
    if q.groupBy != [] || q.having.Some? { return None; }
    var op := q.setOperation.value;
    var left := Build(m, op.left, depth + 1, None);
    if left.None? { return None; }
    var right := Build(m, op.right, depth + 1, None);
    if right.None? { return None; }
    var sql1 := WrapOperand(op.left.setOperation.Some?, left.value.sql, QueryFragments(m, op.left, depth + 1, None), depth, "_0");
    var sql2 := WrapOperand(op.right.setOperation.Some?, right.value.sql, QueryFragments(m, op.right, depth + 1, None), depth, "_1");
    SetSql(OperandFragments(m, op.left, depth, "_0"), SetText(op.kind), OperandFragments(m, op.right, depth, "_1"));
    return Some(Statement(sql1 + SetText(op.kind) + sql2, left.value.params + right.value.params));
  }

  method WrapOperand(compound: bool, sql: string, ghost fs: seq<Fragment>, depth: nat, side: string) returns (s: string)
    requires sql == Sql(fs)
    ensures s == Sql(Wrapped(compound, fs, depth, side))
  {
    WrappedSql(compound, fs, depth, side);
    s := if compound then " SELECT * FROM ( " + sql + SubName(depth, side) else sql;
  }

  lemma TailSql(ctes: seq<Fragment>, body: seq<Fragment>, tail: string)
    ensures var fs := ctes + body + [Lit(tail)]; Sql(fs) == Sql(ctes) + Sql(body) + tail && Params(fs) == Params(ctes) + Params(body)
  {
    FragmentsConcat(ctes, body);
    Snoc(ctes + body, Lit(tail));
  }

  lemma SetSql(left: seq<Fragment>, word: string, right: seq<Fragment>)
    ensures var fs := left + [Lit(word)] + right; Sql(fs) == Sql(left) + word + Sql(right) && Params(fs) == Params(left) + Params(right)
  {
    Snoc(left, Lit(word));
    FragmentsConcat(left + [Lit(word)], right);
  }

  lemma WrappedSql(wrap: bool, fs: seq<Fragment>, depth: nat, side: string)
    ensures Sql(Wrapped(wrap, fs, depth, side)) == if wrap then " SELECT * FROM ( " + Sql(fs) + SubName(depth, side) else Sql(fs)
    ensures Params(Wrapped(wrap, fs, depth, side)) == Params(fs)
  {
    Cons(Lit(" SELECT * FROM ( "), fs);
    Snoc([Lit(" SELECT * FROM ( ")] + fs, Lit(SubName(depth, side)));
  }

  // ---------------------------------------------------------------- placeholders and parameters

  predicate NoQs(xs: seq<string>) { forall i :: 0 <= i < |xs| ==> NoQ(xs[i]) }

  /**
   * Names and column texts hold no placeholder, and the texts of predicates and of rendered CTEs hold one for each
   * of their values.
   */
  predicate QuerySound(q: Query) {
    && NoQs(q.columns) && NoQs(q.groupBy) && NoQ(q.tableName) && NoQ(Alias(q))
    && (forall i :: 0 <= i < |q.ctes| ==> CteSound(q.ctes[i]))
    && (forall i :: 0 <= i < |q.joins| ==> NoQ(q.joins[i].tableName) && NoQ(q.joins[i].tableAlias) && Sound(q.joins[i].condition))
    && (q.condition.Some? ==> Sound(q.condition.value))
    && (q.having.Some? ==> Sound(q.having.value))
    && (forall i :: 0 <= i < |q.orderBy| ==> NoQ(q.orderBy[i].0))
    && (q.setOperation.Some? ==> QuerySound(q.setOperation.value.left) && QuerySound(q.setOperation.value.right))
  }

  predicate CteSound(cte: Cte) { NoQ(cte.name) && CountQ(cte.sql) == |cte.params| }

  predicate ModelSound(m: Model) { NoQs(m.columns) }

  function CteParams(ctes: seq<Cte>): nat {
    if ctes == [] then 0 else CteParams(ctes[..|ctes| - 1]) + |ctes[|ctes| - 1].params|
  }

  /** The number of values of CTEs that belong to set operations. */
  function Lost(q: Query): nat {
    if q.setOperation.None? then 0
    else CteParams(q.ctes) + Lost(q.setOperation.value.left) + Lost(q.setOperation.value.right)
  }

  /** No set operation in the tree carries a CTE with values of its own. */
  predicate NothingLost(q: Query) {
    q.setOperation.Some? ==>
      && (forall i :: 0 <= i < |q.ctes| ==> q.ctes[i].params == [])
      && NothingLost(q.setOperation.value.left) && NothingLost(q.setOperation.value.right)
  }

  lemma {:induction false} CteParamsZero(ctes: seq<Cte>)
    ensures CteParams(ctes) == 0 <==> forall i :: 0 <= i < |ctes| ==> ctes[i].params == []
  {
    if ctes != [] {
      var init := ctes[..|ctes| - 1];
      CteParamsZero(init);
      assert forall i :: 0 <= i < |init| ==> ctes[i] == init[i];
    }
  }

  lemma {:induction false} LostZero(q: Query)
    ensures Lost(q) == 0 <==> NothingLost(q)
  {
    if q.setOperation.Some? {
      CteParamsZero(q.ctes);
      LostZero(q.setOperation.value.left);
      LostZero(q.setOperation.value.right);
    }
  }

  lemma {:induction false} CommasNoQ(xs: seq<string>)
    requires NoQs(xs)
    ensures NoQ(Commas(xs))
  {
    if |xs| > 1 { CommasNoQ(xs[..|xs| - 1]); }
  }

  lemma {:induction false} CtesBalanced(ctes: seq<Cte>, hasRecursive: bool)
    requires forall i :: 0 <= i < |ctes| ==> CteSound(ctes[i])
    ensures Balanced(CteFragments(ctes, hasRecursive))
    ensures |Params(CteFragments(ctes, hasRecursive))| == CteParams(ctes)
  {
    if ctes != [] {
      var init, cte := ctes[..|ctes| - 1], ctes[|ctes| - 1];
      CtesBalanced(init, hasRecursive);
      CteHeadNoQ(|ctes| == 1, hasRecursive, cte.name);
      Fixed(CteHead(|ctes| == 1, hasRecursive, cte.name));
      Fixed(" ) ");
      CteBalanced(CteFragments(init, hasRecursive), CteHead(|ctes| == 1, hasRecursive, cte.name), cte.sql, cte.params, " ) ");
      CteSql(CteFragments(init, hasRecursive), CteHead(|ctes| == 1, hasRecursive, cte.name), cte.sql, cte.params);
    }
  }

  lemma CteHeadNoQ(first: bool, hasRecursive: bool, name: string)
    requires NoQ(name)
    ensures NoQ(CteHead(first, hasRecursive, name))
  {}

  lemma CteBalanced(before: seq<Fragment>, head: string, sql: string, params: seq<DbValue>, tail: string)
    requires Balanced(before) && Lit(head).Balanced() && Lit(tail).Balanced() && CountQ(sql) == |params|
    ensures Balanced(before + [Lit(head), Slots(sql, params), Lit(tail)])
  {
    assert Slots(sql, params).Balanced();
  }

  lemma {:induction false} JoinsBalanced(joins: seq<Join>)
    requires JoinsRender(joins)
    requires forall i :: 0 <= i < |joins| ==> NoQ(joins[i].tableName) && NoQ(joins[i].tableAlias) && Sound(joins[i].condition)
    ensures Balanced(JoinFragments(joins))
  {
    if joins != [] {
      var init, j := joins[..|joins| - 1], joins[|joins| - 1];
      JoinsBalanced(init);
      Fixed(JoinHead(j)) by { JoinHeadNoQ(j); }
      FragmentsBalanced(j.condition);
      BothBalanced([Lit(JoinHead(j))], Fragments(j.condition));
      BothBalanced(JoinFragments(init), [Lit(JoinHead(j))] + Fragments(j.condition));
    }
  }

  lemma JoinHeadNoQ(j: Join)
    requires NoQ(j.tableName) && NoQ(j.tableAlias)
    ensures NoQ(JoinHead(j))
  {
    assert NoQ(JoinText(j.joinType));
  }

  lemma ClauseBalanced(word: string, p: Option<Predicate>)
    requires OptionRenders(p) && NoQ(word) && (p.Some? ==> Sound(p.value))
    ensures Balanced(ClauseFragments(word, p))
  {
    if p.Some? {
      Fixed(word);
      FragmentsBalanced(p.value);
      BothBalanced([Lit(word)], Fragments(p.value));
    }
  }

  lemma SelectTextNoQ(m: Model, q: Query)
    requires ModelSound(m) && QuerySound(q)
    ensures NoQ(SelectText(m, q))
  {
    var columns := SelectedColumns(m, q);
    forall i | 0 <= i < |columns| ensures NoQ(columns[i]) {
      if q.columns == [] { assert columns[i] == Alias(q) + "." + m.columns[i]; }
    }
    CommasNoQ(columns);
  }

  lemma SelectBalanced(m: Model, q: Query)
    requires WellFormed(q) && q.setOperation.None? && Builds(m, q) && ModelSound(m) && QuerySound(q)
    ensures Balanced(SelectFragments(m, q))
  {
    JoinsBalanced(q.joins);
    ClauseBalanced(" WHERE ", q.condition);
    GroupByBalanced(q.groupBy, q.having);
    SelectTextNoQ(m, q);
    Fixed(SelectText(m, q));
    FourBalanced(Lit(SelectText(m, q)), JoinFragments(q.joins), ClauseFragments(" WHERE ", q.condition), GroupByFragments(q.groupBy, q.having));
  }

  lemma FourBalanced(head: Fragment, joins: seq<Fragment>, condition: seq<Fragment>, group: seq<Fragment>)
    requires head.Balanced() && Balanced(joins) && Balanced(condition) && Balanced(group)
    ensures Balanced([head] + joins + condition + group)
  {}

  lemma GroupByBalanced(groupBy: seq<string>, having: Option<Predicate>)
    requires (groupBy != [] ==> OptionRenders(having)) && NoQs(groupBy) && (having.Some? ==> Sound(having.value))
    ensures Balanced(GroupByFragments(groupBy, having))
  {
    if groupBy != [] {
      CommasNoQ(groupBy);
      Fixed(" GROUP BY " + Commas(groupBy));
      ClauseBalanced(" HAVING ", having);
      BothBalanced([Lit(" GROUP BY " + Commas(groupBy))], ClauseFragments(" HAVING ", having));
    }
  }

  lemma TailNoQ(q: Query, limit: Option<nat>)
    requires QuerySound(q)
    ensures NoQ(TailText(q, limit))
  {
    var items := OrderItems(q.orderBy);
    forall i | 0 <= i < |items| ensures NoQ(items[i]) {
      assert items[i] == OrderItem(q.orderBy[i]);
    }
    CommasNoQ(items);
    assert NoQ(OrderText(q.orderBy));
    CountTextNoQ(" LIMIT ", if limit.Some? then limit else q.limit);
    CountTextNoQ(" OFFSET ", q.offset);
  }

  lemma CountTextNoQ(word: string, n: Option<nat>)
    requires NoQ(word)
    ensures NoQ(CountText(word, n))
  {}

  lemma WrappedBalanced(wrap: bool, fs: seq<Fragment>, depth: nat, side: string)
    requires Balanced(fs) && NoQ(side)
    ensures Balanced(Wrapped(wrap, fs, depth, side))
  {
    Fixed(SubName(depth, side)) by { SubNameNoQ(depth, side); }
    Fixed(" SELECT * FROM ( ");
    Surrounded(Lit(" SELECT * FROM ( "), fs, Lit(SubName(depth, side)));
  }

  lemma SubNameNoQ(depth: nat, side: string)
    requires NoQ(side)
    ensures NoQ(SubName(depth, side))
  {}

  lemma Surrounded(a: Fragment, fs: seq<Fragment>, b: Fragment)
    requires a.Balanced() && Balanced(fs) && b.Balanced()
    ensures Balanced([a] + fs + [b])
  {}

  lemma SetTextBalanced(kind: SetType)
    ensures Lit(SetText(kind)).Balanced()
  {
    assert NoQ(SetText(kind));
    Fixed(SetText(kind));
  }

  lemma {:induction false} QueryBalanced(m: Model, q: Query, depth: nat, limit: Option<nat>)
    requires WellFormed(q) && Builds(m, q) && ModelSound(m) && QuerySound(q)
    ensures Balanced(QueryFragments(m, q, depth, limit))
    decreases q, 1
  {
    CtesBalanced(q.ctes, q.hasRecursive);
    TailNoQ(q, limit);
    Fixed(TailText(q, limit));
    var core := if q.setOperation.Some? then SetFragments(m, q, depth) else SelectFragments(m, q);
    if q.setOperation.Some? { OperandsBalanced(m, q, depth); } else { SelectBalanced(m, q); }
    TailBalanced(CteFragments(q.ctes, q.hasRecursive), core, Lit(TailText(q, limit)));
  }

  lemma TailBalanced(ctes: seq<Fragment>, core: seq<Fragment>, tail: Fragment)
    requires Balanced(ctes) && Balanced(core) && tail.Balanced()
    ensures Balanced(ctes + core + [tail])
  {}

  lemma {:induction false} OperandsBalanced(m: Model, q: Query, depth: nat)
    requires WellFormed(q) && Builds(m, q) && ModelSound(m) && QuerySound(q) && q.setOperation.Some?
    ensures Balanced(SetFragments(m, q, depth))
    decreases q, 0
  {
    var op := q.setOperation.value;
    QueryBalanced(m, op.left, depth + 1, None);
    QueryBalanced(m, op.right, depth + 1, None);
    WrappedBalanced(op.left.setOperation.Some?, QueryFragments(m, op.left, depth + 1, None), depth, "_0");
    WrappedBalanced(op.right.setOperation.Some?, QueryFragments(m, op.right, depth + 1, None), depth, "_1");
    SetTextBalanced(op.kind);
    SetBalanced(OperandFragments(m, op.left, depth, "_0"), Lit(SetText(op.kind)), OperandFragments(m, op.right, depth, "_1"));
  }

  lemma SetBalanced(left: seq<Fragment>, word: Fragment, right: seq<Fragment>)
    requires Balanced(left) && word.Balanced() && Balanced(right)
    ensures Balanced(left + [word] + right)
  {}

  /** Exactly the values of CTEs on set operations are missing from the list. */
  lemma {:induction false} ParamsLost(m: Model, q: Query, depth: nat, limit: Option<nat>)
    requires WellFormed(q) && Builds(m, q) && QuerySound(q)
    ensures Missing(QueryParams(m, q), Lost(q), Params(QueryFragments(m, q, depth, limit)))
    decreases q, 1
  {
    CtesBalanced(q.ctes, q.hasRecursive);
    if q.setOperation.Some? {
      OperandsLost(m, q, depth);
      TailSql(CteFragments(q.ctes, q.hasRecursive), SetFragments(m, q, depth), TailText(q, limit));
    } else {
      TailSql(CteFragments(q.ctes, q.hasRecursive), SelectFragments(m, q), TailText(q, limit));
    }
  }

  predicate Missing(given: seq<DbValue>, n: nat, meant: seq<DbValue>) {
    |given| + n == |meant| && (n == 0 ==> given == meant)
  }

  lemma {:induction false} OperandsLost(m: Model, q: Query, depth: nat)
    requires WellFormed(q) && Builds(m, q) && QuerySound(q) && q.setOperation.Some?
    ensures Missing(QueryParams(m, q), Lost(q) - CteParams(q.ctes), Params(SetFragments(m, q, depth)))
    decreases q, 0
  {
    var op := q.setOperation.value;
    ParamsLost(m, op.left, depth + 1, None);
    ParamsLost(m, op.right, depth + 1, None);
    WrappedSql(op.left.setOperation.Some?, QueryFragments(m, op.left, depth + 1, None), depth, "_0");
    WrappedSql(op.right.setOperation.Some?, QueryFragments(m, op.right, depth + 1, None), depth, "_1");
    SetSql(OperandFragments(m, op.left, depth, "_0"), SetText(op.kind), OperandFragments(m, op.right, depth, "_1"));
  }

  /** The query with no CTEs on its set operations, and otherwise the same. */
  function WithoutSetCtes(q: Query): Query {
    if q.setOperation.None? then q
    else
      var op := q.setOperation.value;
      q.(ctes := [], setOperation := Some(SetOperation(op.kind, WithoutSetCtes(op.left), WithoutSetCtes(op.right))))
  }

  lemma {:induction false} WithoutSetCtesBuilds(m: Model, q: Query)
    requires WellFormed(q)
    ensures WellFormed(WithoutSetCtes(q)) && (WithoutSetCtes(q).setOperation.Some? <==> q.setOperation.Some?)
    ensures Builds(m, WithoutSetCtes(q)) <==> Builds(m, q)
  {
    if q.setOperation.Some? {
      WithoutSetCtesBuilds(m, q.setOperation.value.left);
      WithoutSetCtesBuilds(m, q.setOperation.value.right);
    }
  }

  /**
   * Which values are given: those meant for the query without the CTEs of its set operations, in their order. So the
   * values of just those CTEs are missing.
   */
  lemma {:induction false} ParamsGiven(m: Model, q: Query, depth: nat, limit: Option<nat>)
    requires WellFormed(q) && Builds(m, q)
    ensures WellFormed(WithoutSetCtes(q)) && Builds(m, WithoutSetCtes(q))
    ensures QueryParams(m, q) == Params(QueryFragments(m, WithoutSetCtes(q), depth, limit))
    decreases q, 1
  {
    WithoutSetCtesBuilds(m, q);
    var bare := WithoutSetCtes(q);
    if q.setOperation.Some? {
      SetParamsGiven(m, q, depth);
      TailSql([], SetFragments(m, bare, depth), TailText(bare, limit));
      assert [] + Params(SetFragments(m, bare, depth)) == Params(SetFragments(m, bare, depth));
    } else {
      TailSql(CteFragments(q.ctes, q.hasRecursive), SelectFragments(m, q), TailText(q, limit));
    }
  }

  lemma {:induction false} SetParamsGiven(m: Model, q: Query, depth: nat)
    requires WellFormed(q) && Builds(m, q) && q.setOperation.Some?
    ensures WellFormed(WithoutSetCtes(q)) && Builds(m, WithoutSetCtes(q))
    ensures QueryParams(m, q) == Params(SetFragments(m, WithoutSetCtes(q), depth))
    decreases q, 0
  {
    WithoutSetCtesBuilds(m, q);
    var op, bare := q.setOperation.value, WithoutSetCtes(q).setOperation.value;
    ParamsGiven(m, op.left, depth + 1, None);
    ParamsGiven(m, op.right, depth + 1, None);
    WrappedSql(bare.left.setOperation.Some?, QueryFragments(m, bare.left, depth + 1, None), depth, "_0");
    WrappedSql(bare.right.setOperation.Some?, QueryFragments(m, bare.right, depth + 1, None), depth, "_1");
    SetSql(OperandFragments(m, bare.left, depth, "_0"), SetText(op.kind), OperandFragments(m, bare.right, depth, "_1"));
  }

  /**
   * For every tree of queries: the emitted text has exactly as many more placeholders than there are values as set
   * operations carry CTE values. The counts agree if and only if none does, and then every value is bound to the
   * placeholder it was meant for.
   */
  lemma QueryAligned(m: Model, q: Query, depth: nat, limit: Option<nat>)
    requires WellFormed(q) && Builds(m, q) && ModelSound(m) && QuerySound(q)
    ensures var fs := QueryFragments(m, q, depth, limit);
      && CountQ(Sql(fs)) == |QueryParams(m, q)| + Lost(q)
      && (CountQ(Sql(fs)) == |QueryParams(m, q)| <==> NothingLost(q))
      && Balanced(fs)
      && (NothingLost(q) ==> Bind(Sql(fs), QueryParams(m, q)) == Meaning(fs))
  {
    QueryBalanced(m, q, depth, limit);
    Aligned(QueryFragments(m, q, depth, limit));
    ParamsLost(m, q, depth, limit);
    LostZero(q);
  }

  // ---------------------------------------------------------------- queries inside queries

  datatype CteOutcome = Added | Refused | InnerThrew

  /** The builder: the part of it that decides which CTEs a query has. */
  class Builder {
    var query: Query
    const model: Model

    constructor (m: Model, q: Query)
      requires WellFormed(q) && AtMostOneRecursive(q)
      ensures Valid() && query == q && model == m
    {
      model, query := m, q;
    }

    predicate Valid() reads this { WellFormed(query) && AtMostOneRecursive(query) }

    /**
     * `withCte` of a query. The flag is raised before the inner query is rendered, so it stays raised when that
     * throws.
     */
    method WithCte(name: string, inner: Query, recursive: bool) returns (outcome: CteOutcome)
      requires Valid() && WellFormed(inner)
      modifies this
      ensures Valid()
      ensures outcome.Refused? <==>
        recursive && (inner.setOperation.None? || !(inner.setOperation.value.kind.UNION? || inner.setOperation.value.kind.UNION_ALL?)
                      || inner.hasRecursive || old(query).hasRecursive)
      ensures !outcome.Refused? ==> (outcome.InnerThrew? <==> !Builds(model, inner))
      ensures outcome.Refused? ==> query == old(query)
      ensures outcome.InnerThrew? ==> query == old(query).(hasRecursive := old(query).hasRecursive || recursive)
      ensures outcome.Added? ==>
        query == old(query).(
          hasRecursive := old(query).hasRecursive || recursive,
          ctes := old(query).ctes + [Cte(name, Sql(QueryFragments(model, inner, 0, None)), QueryParams(model, inner), recursive)])
      ensures outcome.Added? && NoQ(name) && ModelSound(model) && QuerySound(inner) && QuerySound(old(query)) ==>
        (QuerySound(query) <==> NothingLost(inner))
    {
      if recursive && (inner.setOperation.None? || !(inner.setOperation.value.kind.UNION? || inner.setOperation.value.kind.UNION_ALL?)) {
        return Refused;
      }
      if recursive && inner.hasRecursive { return Refused; }
      if query.hasRecursive && recursive { return Refused; }
      query := query.(hasRecursive := query.hasRecursive || recursive);
      var statement := Build(model, inner, 0, None);
      if statement.None? { return InnerThrew; }
      var cte := Cte(name, statement.value.sql, statement.value.params, recursive);
      RenderedCte(model, inner, name, recursive);
      query := query.(ctes := query.ctes + [cte]);
      CteAdded(old(query), query, cte);
      return Added;
    }
  }

  /** At most one CTE is recursive, and the flag that guards it is up whenever there is one. */
  predicate AtMostOneRecursive(q: Query) {
    && (forall i :: 0 <= i < |q.ctes| && q.ctes[i].recursive ==> q.hasRecursive)
    && (forall i, j :: 0 <= i < j < |q.ctes| && q.ctes[i].recursive ==> !q.ctes[j].recursive)
  }

  lemma RenderedCte(m: Model, inner: Query, name: string, recursive: bool)
    requires WellFormed(inner) && Builds(m, inner)
    ensures NoQ(name) && ModelSound(m) && QuerySound(inner) ==>
      (CteSound(Cte(name, Sql(QueryFragments(m, inner, 0, None)), QueryParams(m, inner), recursive)) <==> NothingLost(inner))
  {
    if NoQ(name) && ModelSound(m) && QuerySound(inner) { QueryAligned(m, inner, 0, None); }
  }

  lemma CteAdded(before: Query, after: Query, cte: Cte)
    requires AtMostOneRecursive(before) && (cte.recursive ==> !before.hasRecursive)
    requires after == before.(hasRecursive := before.hasRecursive || cte.recursive, ctes := before.ctes + [cte])
    ensures AtMostOneRecursive(after)
    ensures WellFormed(before) ==> WellFormed(after)
    ensures QuerySound(before) ==> (QuerySound(after) <==> CteSound(cte))
  {
    assert after.ctes[|before.ctes|] == cte;
    assert forall i :: 0 <= i < |before.ctes| ==> after.ctes[i] == before.ctes[i];
    assert Alias(after) == Alias(before);
  }

  lemma OperandSound(sql: string, params: seq<DbValue>, column: string, op: Operator, fn: string)
    requires NoQ(column) && NoQ(fn)
    ensures Sound(Exists(sql, params)) <==> CountQ(sql) == |params|
    ensures Sound(SubQuery(column, op, sql, params, fn)) <==> CountQ(sql) == |params|
  {}

  /** A query as the operand of `EXISTS` and of a comparison: the predicate is sound exactly when nothing was lost. */
  method SubQueryPredicates(m: Model, inner: Query, column: string, op: Operator, fn: string)
      returns (built: bool, existence: Predicate, comparison: Predicate)
    requires WellFormed(inner) && ModelSound(m) && QuerySound(inner) && NoQ(column) && NoQ(fn)
    ensures built <==> Builds(m, inner)
    ensures built ==> existence == Exists(Sql(QueryFragments(m, inner, 0, None)), QueryParams(m, inner))
    ensures built ==> comparison == SubQuery(column, op, existence.text, existence.values, fn)
    ensures built ==> (Sound(existence) <==> NothingLost(inner)) && (Sound(comparison) <==> NothingLost(inner))
  {
    existence, comparison := False, False;
    var statement := Build(m, inner, 0, None);
    if statement.None? { return false, existence, comparison; }
    QueryAligned(m, inner, 0, None);
    OperandSound(statement.value.sql, statement.value.params, column, op, fn);
    existence := Exists(statement.value.sql, statement.value.params);
    comparison := SubQuery(column, op, statement.value.sql, statement.value.params, fn);
    return true, existence, comparison;
  }
}
