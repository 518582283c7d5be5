/** `resolvePredicates`: predicates as SQL text, with their values appended to a shared parameter list. */
module PredicateSql {
  import opened Wrappers
  import opened Placeholders
  import opened Predicate

  function Call(fn: string, arg: string): string {
    if fn == "" then arg else fn + "(" + arg + ")"
  }

  predicate Grouping(op: Operator) { op.IN? || op.NOT_IN? || op.BETWEEN? }

  function InSlots(values: seq<DbValue>): seq<Fragment> {
    if values == [] then []
    else InSlots(values[..|values| - 1]) + [Slots(if |values| == 1 then " ? " else ", ? ", [values[|values| - 1]])]
  }

  /** What the constructors guarantee: a plain comparison has a value to compare with. */
  predicate Constructed(p: Predicate) {
    match p
    case Leaf(_, op, values, _, _) => Grouping(op) || op.IS_NULL? || op.IS_NOT_NULL? || values != []
    case And(l, r) => Constructed(l) && Constructed(r)
    case Or(l, r) => Constructed(l) && Constructed(r)
    case _ => true
  }

  /** Rendering throws on a BETWEEN without exactly two values, and on nothing else. */
  predicate Renders(p: Predicate) {
    match p
    case Leaf(_, BETWEEN, values, _, _) => |values| == 2
    case And(l, r) => Renders(l) && Renders(r)
    case Or(l, r) => Renders(l) && Renders(r)
    case _ => true
  }

  function ComparisonText(a: string, op: Operator, b: string): string { " " + a + " " + OpString(op) + " " + b + " " }

  function CompareFragments(lhs: string, op: Operator, rhs: string, v: DbValue): seq<Fragment> {
    [Lit(" " + lhs + " " + OpString(op) + " "), Slots(rhs, [v]), Lit(" ")] + if op.LIKE? then [Lit(" ESCAPE '\\' ")] else []
  }

  function BetweenFragments(lhs: string, rhs: string, lo: DbValue, hi: DbValue): seq<Fragment> {
    [Lit(lhs), BetweenWord, Slots(rhs, [lo]), AndWord, Slots(rhs, [hi])]
  }

  function InFragments(lhs: string, op: Operator, values: seq<DbValue>): seq<Fragment> {
    [Lit(" " + lhs + " " + OpString(op)), Open(" ( ")] + InSlots(values) + [Close(" ) ")]
  }

  function SubQueryFragments(fn: string, a: string, op: Operator, sql: string, values: seq<DbValue>): seq<Fragment> {
    (if fn == "" then [] else [Lit(fn)])
    + ([Open("("), Lit(a), Close(") ")] + [Lit(OpString(op))] + [Open(" ( "), Slots(sql, values), Close(" ) ")])
  }

  function ExistsFragments(word: string, sql: string, values: seq<DbValue>): seq<Fragment> {
    [Lit(word), Open("("), Slots(sql, values), Close(") ")]
  }

  function GroupFragments(left: seq<Fragment>, word: Fragment, right: seq<Fragment>): seq<Fragment> {
    [Open("(")] + left + [word] + right + [Close(")")]
  }

  function LeafFragments(p: Predicate): seq<Fragment>
    requires p.Leaf? && Constructed(p) && Renders(p)
  {
    var lhs, rhs := Call(p.lhsFunction, p.columnA), Call(p.rhsFunction, "?");
    if p.op.IS_NULL? || p.op.IS_NOT_NULL? then [Lit(" " + (lhs + " " + OpString(p.op)))]
    else if p.op.BETWEEN? then BetweenFragments(lhs, rhs, p.values[0], p.values[1])
    else if Grouping(p.op) then InFragments(lhs, p.op, p.values)
    else CompareFragments(lhs, p.op, rhs, p.values[0])
  }

  /** The rendering as fragments: each placeholder next to the value it stands for. */
  function Fragments(p: Predicate): seq<Fragment>
    requires Constructed(p) && Renders(p)
  {
    match p
    case Leaf(_, _, _, _, _) => LeafFragments(p)
    case And(l, r) => GroupFragments(Fragments(l), AndWord, Fragments(r))
    case Or(l, r) => GroupFragments(Fragments(l), OrWord, Fragments(r))
    case True => [Lit(" TRUE ")]
    case False => [Lit(" FALSE ")]
    case Str(text, values) => [Slots(" " + text + " ", values)]
    case FieldComparison(a, op, b) => [Lit(ComparisonText(a, op, b))]
    case SubQuery(a, op, sql, values, fn) => SubQueryFragments(fn, a, op, sql, values)
    case Exists(sql, values) => ExistsFragments(" EXISTS ", sql, values)
    case NotExists(sql, values) => ExistsFragments(" NOT EXISTS ", sql, values)
    case Raw(a, op, b, values) => [Slots(ComparisonText(a, op, b), values)]
  }

  // ---------------------------------------------------------------- the code's rendering

  /** The vector `out_params` that one rendering appends to. */
  class ParamList {
    var values: seq<DbValue>

    constructor ()
      ensures values == []
    { values := []; }

    method Append(more: seq<DbValue>)
      modifies this
      ensures values == old(values) + more
    { values := values + more; }
  }

  lemma One(a: Fragment)
    ensures Sql([a]) == a.Sql() && Params([a]) == a.Params()
  {
    assert Sql([a]) == Sql([a][..0]) + a.Sql() && Params([a]) == Params([a][..0]) + a.Params();
  }

  lemma Snoc(fs: seq<Fragment>, a: Fragment)
    ensures Sql(fs + [a]) == Sql(fs) + a.Sql()
    ensures Params(fs + [a]) == if a.Slots? then Params(fs) + a.values else Params(fs)
  {
    One(a);
    FragmentsConcat(fs, [a]);
    assert Params(fs) + [] == Params(fs);
  }

  lemma Cons(a: Fragment, fs: seq<Fragment>)
    requires !a.Slots?
    ensures Sql([a] + fs) == a.Sql() + Sql(fs) && Params([a] + fs) == Params(fs)
  {
    One(a);
    FragmentsConcat([a], fs);
    assert [] + Params(fs) == Params(fs);
  }

  lemma Three(a: Fragment, b: Fragment, c: Fragment)
    ensures Sql([a, b, c]) == a.Sql() + b.Sql() + c.Sql()
    ensures Params([a, b, c]) == a.Params() + b.Params() + c.Params()
  {
    One(a);
    Snoc([a], b);
    Snoc([a] + [b], c);
    assert [a, b, c] == [a] + [b] + [c];
  }

  lemma CompareSql(lhs: string, op: Operator, rhs: string, v: DbValue)
    ensures Sql(CompareFragments(lhs, op, rhs, v)) == ComparisonText(lhs, op, rhs) + if op.LIKE? then " ESCAPE '\\' " else ""
    ensures Params(CompareFragments(lhs, op, rhs, v)) == [v]
  {
    var a, b := Lit(" " + lhs + " " + OpString(op) + " "), Slots(rhs, [v]);
    Three(a, b, Lit(" "));
    if op.LIKE? { Snoc([a, b, Lit(" ")], Lit(" ESCAPE '\\' ")); }
    assert !op.LIKE? ==> CompareFragments(lhs, op, rhs, v) == [a, b, Lit(" ")];
    assert [] + [v] + [] == [v];
  }

  lemma BetweenSql(lhs: string, rhs: string, lo: DbValue, hi: DbValue)
    ensures Sql(BetweenFragments(lhs, rhs, lo, hi)) == lhs + " BETWEEN " + rhs + " AND " + rhs
    ensures Params(BetweenFragments(lhs, rhs, lo, hi)) == [lo, hi]
  {
    var head := [Lit(lhs), BetweenWord, Slots(rhs, [lo])];
    Three(Lit(lhs), BetweenWord, Slots(rhs, [lo]));
    Snoc(head, AndWord);
    Snoc(head + [AndWord], Slots(rhs, [hi]));
    assert BetweenFragments(lhs, rhs, lo, hi) == head + [AndWord] + [Slots(rhs, [hi])];
    assert [] + [] + [lo] + [hi] == [lo, hi];
  }

  lemma BracketedListSql(head: Fragment, open: Fragment, list: seq<Fragment>, close: Fragment)
    requires head.Lit? && open.Open? && close.Close?
    ensures Sql([head, open] + list + [close]) == head.text + open.text + Sql(list) + close.text
    ensures Params([head, open] + list + [close]) == Params(list)
  {
    One(head);
    Snoc([head], open);
    assert [head, open] == [head] + [open];
    FragmentsConcat([head, open], list);
    Snoc([head, open] + list, close);
    assert [] + Params(list) == Params(list);
  }

  lemma InSql(lhs: string, op: Operator, values: seq<DbValue>)
    ensures Sql(InFragments(lhs, op, values)) == " " + lhs + " " + OpString(op) + " ( " + Sql(InSlots(values)) + " ) "
    ensures Params(InFragments(lhs, op, values)) == Params(InSlots(values))
  {
    BracketedListSql(Lit(" " + lhs + " " + OpString(op)), Open(" ( "), InSlots(values), Close(" ) "));
  }

  lemma BracketSql(open: Fragment, inner: Fragment, close: Fragment)
    requires open.Open? && close.Close?
    ensures Sql([open, inner, close]) == open.text + inner.Sql() + close.text && Params([open, inner, close]) == inner.Params()
  {
    Three(open, inner, close);
    assert [] + inner.Params() + [] == inner.Params();
  }

  lemma SubQuerySql(fn: string, a: string, op: Operator, sql: string, values: seq<DbValue>)
    ensures Sql(SubQueryFragments(fn, a, op, sql, values)) == fn + ("(" + a + ") " + OpString(op) + (" ( " + sql + " ) "))
    ensures Params(SubQueryFragments(fn, a, op, sql, values)) == values
  {
    var column := [Open("("), Lit(a), Close(") ")];
    var query := [Open(" ( "), Slots(sql, values), Close(" ) ")];
    BracketSql(Open("("), Lit(a), Close(") "));
    BracketSql(Open(" ( "), Slots(sql, values), Close(" ) "));
    Between(column, Lit(OpString(op)), query);
    SubQueryStart(fn, column + [Lit(OpString(op))] + query);
  }

  lemma Between(left: seq<Fragment>, word: Fragment, right: seq<Fragment>)
    requires word.Lit?
    ensures Sql(left + [word] + right) == Sql(left) + word.text + Sql(right)
    ensures Params(left) == [] ==> Params(left + [word] + right) == Params(right)
  {
    Snoc(left, word);
    FragmentsConcat(left + [word], right);
    assert [] + Params(right) == Params(right);
  }

  lemma SubQueryStart(fn: string, f: seq<Fragment>)
    ensures var fs := (if fn == "" then [] else [Lit(fn)]) + f; Sql(fs) == fn + Sql(f) && Params(fs) == Params(f)
  {
    if fn == "" {
      assert [] + f == f && fn + Sql(f) == Sql(f);
    } else {
      Cons(Lit(fn), f);
    }
  }

  lemma ExistsSql(word: string, sql: string, values: seq<DbValue>)
    ensures Sql(ExistsFragments(word, sql, values)) == word + "(" + sql + ") "
    ensures Params(ExistsFragments(word, sql, values)) == values
  {
    var head := [Lit(word), Open("("), Slots(sql, values)];
    Three(Lit(word), Open("("), Slots(sql, values));
    Snoc(head, Close(") "));
    assert ExistsFragments(word, sql, values) == head + [Close(") ")];
    assert [] + [] + values == values;
  }

  lemma GroupSql(left: seq<Fragment>, word: Fragment, right: seq<Fragment>)
    requires word.AndWord? || word.OrWord?
    ensures Sql(GroupFragments(left, word, right)) == "(" + Sql(left) + word.Sql() + Sql(right) + ")"
    ensures Params(GroupFragments(left, word, right)) == Params(left) + Params(right)
  {
    Cons(Open("("), left);
    Snoc([Open("(")] + left, word);
    FragmentsConcat([Open("(")] + left + [word], right);
    Snoc([Open("(")] + left + [word] + right, Close(")"));
  }

  /** The values between the brackets of IN, pushed and given a placeholder one by one. */
  method ResolveInList(values: seq<DbValue>, out: ParamList) returns (s: string)
    modifies out
    ensures s == Sql(InSlots(values)) && out.values == old(out.values) + Params(InSlots(values))
  {
    s := "";
    if values == [] { return; }
    FirstSlot(values, out.values);
    out.Append([values[0]]);
    s := s + " ? ";
    var i := 1;
    while i < |values|
      invariant 1 <= i <= |values|
      invariant s == Sql(InSlots(values[..i])) && out.values == old(out.values) + Params(InSlots(values[..i]))
    {
      InListStep(values, i, old(out.values));
      out.Append([values[i]]);
      s := s + ", ? ";
      i := i + 1;
    }
    assert values[..i] == values;
  }

  lemma FirstSlot(values: seq<DbValue>, v: seq<DbValue>)
    requires values != []
    ensures Sql(InSlots(values[..1])) == "" + " ? " && v + Params(InSlots(values[..1])) == v + [values[0]]
  {
    assert InSlots(values[..1]) == [Slots(" ? ", [values[0]])];
    One(Slots(" ? ", [values[0]]));
  }

  lemma InListStep(values: seq<DbValue>, i: nat, v: seq<DbValue>)
    requires 1 <= i < |values|
    ensures var before, after := InSlots(values[..i]), InSlots(values[..i + 1]);
      && Sql(after) == Sql(before) + ", ? " && v + Params(before) + [values[i]] == v + Params(after)
  {
    assert values[..i + 1][..i] == values[..i];
    Snoc(InSlots(values[..i]), Slots(", ? ", [values[i]]));
    Regroup(v, Params(InSlots(values[..i])), [values[i]]);
  }

  method ResolveLeaf(p: Predicate, out: ParamList) returns (r: Option<string>)
    requires p.Leaf? && Constructed(p)
    modifies out
    ensures r.Some? <==> Renders(p)
    ensures r.Some? ==> r.value == Sql(LeafFragments(p)) && out.values == old(out.values) + Params(LeafFragments(p))
  {
    var lhs := Call(p.lhsFunction, p.columnA);
    if p.op.IS_NULL? || p.op.IS_NOT_NULL? {
      One(Lit(" " + (lhs + " " + OpString(p.op))));
      return Some(" " + (lhs + " " + OpString(p.op)));
    }
    var rhs := Call(p.rhsFunction, "?");
    if !Grouping(p.op) {
      out.Append([p.values[0]]);
      var s := ComparisonText(lhs, p.op, rhs);
      if p.op.LIKE? { s := s + " ESCAPE '\\' "; }
      CompareSql(lhs, p.op, rhs, p.values[0]);
      return Some(s);
    }
    if p.op.BETWEEN? {
      if |p.values| != 2 { return None; }
      out.Append([p.values[0]]);
      out.Append([p.values[1]]);
      BetweenSql(lhs, rhs, p.values[0], p.values[1]);
      return Some(lhs + " BETWEEN " + rhs + " AND " + rhs);
    }
    var list := ResolveInList(p.values, out);
    InSql(lhs, p.op, p.values);
    return Some(" " + lhs + " " + OpString(p.op) + " ( " + list + " ) ");
  }

  method ResolveAtom(p: Predicate, out: ParamList) returns (s: string)
    requires !p.Leaf? && !p.IsGroup()
    modifies out
    ensures s == Sql(Fragments(p)) && out.values == old(out.values) + Params(Fragments(p))
  {
    match p {
      case Str(text, values) =>
        out.Append(values);
        One(Slots(" " + text + " ", values));
        return " " + text + " ";
      case True =>
        One(Lit(" TRUE "));
        return " TRUE ";
      case False =>
        One(Lit(" FALSE "));
        return " FALSE ";
      case FieldComparison(a, op, b) =>
        One(Lit(ComparisonText(a, op, b)));
        return ComparisonText(a, op, b);
      case SubQuery(a, op, sql, values, fn) =>
        out.Append(values);
        SubQuerySql(fn, a, op, sql, values);
        return fn + ("(" + a + ") " + OpString(op) + (" ( " + sql + " ) "));
      case Exists(sql, values) =>
        out.Append(values);
        ExistsSql(" EXISTS ", sql, values);
        return " EXISTS " + "(" + sql + ") ";
      case NotExists(sql, values) =>
        out.Append(values);
        ExistsSql(" NOT EXISTS ", sql, values);
        return " NOT EXISTS " + "(" + sql + ") ";
      case Raw(a, op, b, values) =>
        out.Append(values);
        One(Slots(ComparisonText(a, op, b), values));
        return ComparisonText(a, op, b);
    }
  }

  /** `resolvePredicates` */
  method Resolve(p: Predicate, out: ParamList) returns (r: Option<string>)
    requires Constructed(p)
    modifies out
    ensures r.Some? <==> Renders(p)
    ensures r.Some? ==> r.value == Sql(Fragments(p)) && out.values == old(out.values) + Params(Fragments(p))
    decreases p
  {
    if p.Leaf? {
      r := ResolveLeaf(p, out);
    } else if p.IsGroup() {
      var word := if p.And? then AndWord else OrWord;
      var l := Resolve(p.left, out);
      if l.None? { return None; }
      var rr := Resolve(p.right, out);
      if rr.None? { return None; }
      GroupSql(Fragments(p.left), word, Fragments(p.right));
      Regroup(old(out.values), Params(Fragments(p.left)), Params(Fragments(p.right)));
      return Some("(" + l.value + word.Sql() + rr.value + ")");
    } else {
      var s := ResolveAtom(p, out);
      return Some(s);
    }
  }

  // ---------------------------------------------------------------- placeholders of a predicate

  /** Column and function names hold no placeholder, and hand-written text holds one for each of its values. */
  predicate Sound(p: Predicate) {
    match p
    case Leaf(a, _, _, lhsFunction, rhsFunction) => NoQ(a) && NoQ(lhsFunction) && NoQ(rhsFunction)
    case And(l, r) => Sound(l) && Sound(r)
    case Or(l, r) => Sound(l) && Sound(r)
    case True => true
    case False => true
    case Str(text, values) => CountQ(text) == |values|
    case FieldComparison(a, _, b) => NoQ(a) && NoQ(b)
    case SubQuery(a, _, sql, values, fn) => NoQ(a) && NoQ(fn) && CountQ(sql) == |values|
    case Exists(sql, values) => CountQ(sql) == |values|
    case NotExists(sql, values) => CountQ(sql) == |values|
    case Raw(a, _, b, values) => CountQ(a) + CountQ(b) == |values|
  }

  lemma CallSlots(fn: string, arg: string)
    requires NoQ(fn)
    ensures CountQ(Call(fn, arg)) == CountQ(arg)
  {
    CountNoQ(fn);
    CountNoQ("(");
    CountNoQ(")");
    CountConcat(fn + "(" + arg, ")");
    CountConcat(fn + "(", arg);
    CountConcat(fn, "(");
  }

  lemma ComparisonSlots(a: string, op: Operator, b: string)
    ensures CountQ(ComparisonText(a, op, b)) == CountQ(a) + CountQ(b)
  {
    CountNoQ(" ");
    OpNoQ(op);
    CountConcat(" ", a);
    CountConcat(" " + a, " ");
    CountConcat(" " + a + " ", OpString(op));
    CountConcat(" " + a + " " + OpString(op), " ");
    CountConcat(" " + a + " " + OpString(op) + " ", b);
    CountConcat(" " + a + " " + OpString(op) + " " + b, " ");
  }

  lemma OpNoQ(op: Operator)
    ensures NoQ(OpString(op)) && CountQ(OpString(op)) == 0
  {
    CountNoQ(OpString(op));
  }

  lemma OneSlot()
    ensures CountQ("?") == 1 && CountQ(" ? ") == 1 && CountQ(", ? ") == 1
  {
    CountNoQ("");
    assert "?"[..0] == "";
    CountNoQ(" ");
    CountNoQ(", ");
    CountConcat(" ", "?");
    CountConcat(" " + "?", " ");
    assert " ? " == " " + "?" + " ";
    CountConcat(", ", "?");
    CountConcat(", " + "?", " ");
    assert ", ? " == ", " + "?" + " ";
  }

  lemma {:induction false} InSlotsBalanced(values: seq<DbValue>)
    ensures Balanced(InSlots(values))
  {
    OneSlot();
    if values != [] { InSlotsBalanced(values[..|values| - 1]); }
  }

  lemma Fixed(text: string)
    requires NoQ(text)
    ensures Lit(text).Balanced() && Open(text).Balanced() && Close(text).Balanced()
  {
    CountNoQ(text);
  }

  lemma WordsBalanced()
    ensures AndWord.Balanced() && OrWord.Balanced() && BetweenWord.Balanced()
  {
    CountNoQ(" AND ");
    CountNoQ(" OR ");
    CountNoQ(" BETWEEN ");
  }

  lemma BothBalanced(fs: seq<Fragment>, gs: seq<Fragment>)
    requires Balanced(fs) && Balanced(gs)
    ensures Balanced(fs + gs)
  {}

  lemma CompareBalanced(lhs: string, op: Operator, rhs: string, v: DbValue)
    requires NoQ(lhs) && CountQ(rhs) == 1
    ensures Balanced(CompareFragments(lhs, op, rhs, v))
  {
    OpNoQ(op);
    var head, slot := Lit(" " + lhs + " " + OpString(op) + " "), Slots(rhs, [v]);
    Fixed(head.text) by { ComparisonHeadNoQ(lhs, op); }
    Fixed(" ");
    EscapeBalanced();
    ThreeBalanced(head, slot, Lit(" "));
    BothBalanced([head, slot, Lit(" ")], if op.LIKE? then [Lit(" ESCAPE '\\' ")] else []);
  }

  lemma ComparisonHeadNoQ(lhs: string, op: Operator)
    requires NoQ(lhs)
    ensures NoQ(" " + lhs + " " + OpString(op) + " ")
  {
    OpNoQ(op);
  }

  lemma ThreeBalanced(a: Fragment, b: Fragment, c: Fragment)
    requires a.Balanced() && b.Balanced() && c.Balanced()
    ensures Balanced([a, b, c])
  {}

  lemma EscapeBalanced()
    ensures Balanced([Lit(" ESCAPE '\\' ")])
  {
    Fixed(" ESCAPE '\\' ");
  }

  lemma BetweenBalanced(lhs: string, rhs: string, lo: DbValue, hi: DbValue)
    requires NoQ(lhs) && CountQ(rhs) == 1
    ensures Balanced(BetweenFragments(lhs, rhs, lo, hi))
  {
    Fixed(lhs);
    WordsBalanced();
    assert Slots(rhs, [lo]).Balanced() && Slots(rhs, [hi]).Balanced();
  }

  lemma InBalanced(lhs: string, op: Operator, values: seq<DbValue>)
    requires NoQ(lhs)
    ensures Balanced(InFragments(lhs, op, values))
  {
    OpNoQ(op);
    var head := Lit(" " + lhs + " " + OpString(op));
    Fixed(head.text);
    InSlotsBalanced(values);
    Bracketed(" ( ", InSlots(values), " ) ");
    BracketedAfter(head, Open(" ( "), InSlots(values), Close(" ) "));
  }

  lemma BracketedAfter(head: Fragment, open: Fragment, fs: seq<Fragment>, close: Fragment)
    requires head.Balanced() && Balanced([open] + fs + [close])
    ensures Balanced([head, open] + fs + [close])
  {
    BothBalanced([head], [open] + fs + [close]);
    assert [head, open] + fs + [close] == [head] + ([open] + fs + [close]);
  }

  lemma Bracketed(open: string, fs: seq<Fragment>, close: string)
    requires NoQ(open) && NoQ(close) && Balanced(fs)
    ensures Balanced([Open(open)] + fs + [Close(close)])
  {
    Fixed(open);
    Fixed(close);
  }

  lemma SubQueryBalanced(fn: string, a: string, op: Operator, sql: string, values: seq<DbValue>)
    requires NoQ(fn) && NoQ(a) && CountQ(sql) == |values|
    ensures Balanced(SubQueryFragments(fn, a, op, sql, values))
  {
    OpNoQ(op);
    Fixed(fn);
    Fixed(a);
    Fixed(OpString(op));
    Bracketed("(", [Lit(a)], ") ");
    Bracketed(" ( ", [Slots(sql, values)], " ) ");
    SubQueryJoin(fn, [Open("(")] + [Lit(a)] + [Close(") ")], Lit(OpString(op)), [Open(" ( ")] + [Slots(sql, values)] + [Close(" ) ")]);
    assert [Open("(")] + [Lit(a)] + [Close(") ")] == [Open("("), Lit(a), Close(") ")];
    assert [Open(" ( ")] + [Slots(sql, values)] + [Close(" ) ")] == [Open(" ( "), Slots(sql, values), Close(" ) ")];
  }

  lemma SubQueryJoin(fn: string, column: seq<Fragment>, op: Fragment, query: seq<Fragment>)
    requires Lit(fn).Balanced() && Balanced(column) && op.Balanced() && Balanced(query)
    ensures Balanced((if fn == "" then [] else [Lit(fn)]) + (column + [op] + query))
  {}

  lemma ExistsBalanced(word: string, sql: string, values: seq<DbValue>)
    requires NoQ(word) && CountQ(sql) == |values|
    ensures Balanced(ExistsFragments(word, sql, values))
  {
    Fixed(word);
    Fixed("(");
    Fixed(") ");
    assert Slots(sql, values).Balanced();
  }

  lemma GroupBalanced(left: seq<Fragment>, word: Fragment, right: seq<Fragment>)
    requires Balanced(left) && word.Balanced() && Balanced(right)
    ensures Balanced(GroupFragments(left, word, right))
  {
    Fixed("(");
    Fixed(")");
    FiveBalanced(Open("("), left, word, right, Close(")"));
  }

  lemma FiveBalanced(open: Fragment, left: seq<Fragment>, word: Fragment, right: seq<Fragment>, close: Fragment)
    requires open.Balanced() && Balanced(left) && word.Balanced() && Balanced(right) && close.Balanced()
    ensures Balanced([open] + left + [word] + right + [close])
  {}

  lemma CallNoQ(fn: string, arg: string)
    requires NoQ(fn) && NoQ(arg)
    ensures NoQ(Call(fn, arg))
  {}

  lemma LeafBalanced(p: Predicate)
    requires p.Leaf? && Constructed(p) && Renders(p) && Sound(p)
    ensures Balanced(LeafFragments(p))
  {
    var lhs, rhs := Call(p.lhsFunction, p.columnA), Call(p.rhsFunction, "?");
    CallNoQ(p.lhsFunction, p.columnA);
    CallSlots(p.rhsFunction, "?");
    OneSlot();
    if p.op.IS_NULL? || p.op.IS_NOT_NULL? {
      OpNoQ(p.op);
      Fixed(" " + (lhs + " " + OpString(p.op)));
    } else if p.op.BETWEEN? {
      BetweenBalanced(lhs, rhs, p.values[0], p.values[1]);
    } else if Grouping(p.op) {
      InBalanced(lhs, p.op, p.values);
    } else {
      CompareBalanced(lhs, p.op, rhs, p.values[0]);
    }
  }

  lemma AtomBalanced(p: Predicate)
    requires !p.Leaf? && !p.IsGroup() && Sound(p)
    ensures Balanced(Fragments(p))
  {
    match p
    case Str(text, _) =>
      CountNoQ(" ");
      CountConcat(" ", text);
      CountConcat(" " + text, " ");
    case FieldComparison(a, op, b) =>
      CountNoQ(a);
      CountNoQ(b);
      ComparisonSlots(a, op, b);
    case Raw(a, op, b, _) =>
      ComparisonSlots(a, op, b);
    case SubQuery(a, op, sql, values, fn) =>
      SubQueryBalanced(fn, a, op, sql, values);
    case Exists(sql, values) =>
      ExistsBalanced(" EXISTS ", sql, values);
    case NotExists(sql, values) =>
      ExistsBalanced(" NOT EXISTS ", sql, values);
    case True =>
      Fixed(" TRUE ");
    case False =>
      Fixed(" FALSE ");
  }

  lemma {:induction false} FragmentsBalanced(p: Predicate)
    requires Constructed(p) && Renders(p) && Sound(p)
    ensures Balanced(Fragments(p))
  {
    if p.Leaf? {
      LeafBalanced(p);
    } else if p.IsGroup() {
      FragmentsBalanced(p.left);
      FragmentsBalanced(p.right);
      WordsBalanced();
      GroupBalanced(Fragments(p.left), if p.And? then AndWord else OrWord, Fragments(p.right));
    } else {
      AtomBalanced(p);
    }
  }

  /**
   * In every predicate the placeholders of the text and the appended values agree in number, and each value lands
   * in the placeholder of the comparison it was given for.
   */
  lemma PredicateAligned(p: Predicate)
    requires Constructed(p) && Renders(p) && Sound(p)
    ensures CountQ(Sql(Fragments(p))) == |Params(Fragments(p))|
    ensures Balanced(Fragments(p)) && Bind(Sql(Fragments(p)), Params(Fragments(p))) == Meaning(Fragments(p))
  {
    FragmentsBalanced(p);
    Aligned(Fragments(p));
  }

  // ---------------------------------------------------------------- reading a rendering back

  /** What a reader makes of a rendered predicate: comparisons joined by AND and OR. */
  datatype Reading =
    | Comparison(tokens: seq<Fragment>)
    | Range(subject: seq<Fragment>, low: seq<Fragment>, high: seq<Fragment>)
    | Both(left: Reading, right: Reading)
    | Either(left: Reading, right: Reading)

  predicate Operand(f: Fragment) { f.Lit? || f.Slots? }

  /** The length of the longest run of operands. */
  function Run(fs: seq<Fragment>): (n: nat)
    ensures n <= |fs|
    ensures n < |fs| ==> !Operand(fs[n])
  {
    if fs == [] || !Operand(fs[0]) then 0 else 1 + Run(fs[1..])
  }

  /** The length of an operand or of operands in brackets at the front; 0 if there is neither. */
  function Item(fs: seq<Fragment>): (n: nat)
    ensures n <= |fs|
  {
    if fs == [] then 0
    else if Operand(fs[0]) then 1
    else if !fs[0].Open? then 0
    else
      var m := Run(fs[1..]);
      if 1 + m < |fs| && fs[1 + m].Close? then 2 + m else 0
  }

  function Items(fs: seq<Fragment>): (n: nat)
    ensures n <= |fs|
  {
    var n := Item(fs);
    if n == 0 then 0 else n + Items(fs[n..])
  }

  /** A left-to-right reader that never looks back: the word after a BETWEEN's lower bound belongs to the BETWEEN. */
  function Read(fs: seq<Fragment>): (r: Option<(Reading, seq<Fragment>)>)
    ensures r.Some? ==> |r.value.1| < |fs|
    decreases |fs|
  {
    var n := Items(fs);
    if n > 0 then
      if n < |fs| && fs[n].BetweenWord? then
        var bounds := fs[n + 1..];
        var m := Items(bounds);
        if m < |bounds| && bounds[m].AndWord? then
          var high := bounds[m + 1..];
          var k := Items(high);
          Some((Range(fs[..n], bounds[..m], high[..k]), high[k..]))
        else None
      else Some((Comparison(fs[..n]), fs[n..]))
    else if fs != [] && fs[0].Open? then
      match Read(fs[1..])
      case None => None
      case Some((l, afterLeft)) =>
        if afterLeft == [] || !(afterLeft[0].AndWord? || afterLeft[0].OrWord?) then None
        else match Read(afterLeft[1..])
          case None => None
          case Some((r, afterRight)) =>
            if afterRight == [] || !afterRight[0].Close? then None
            else Some((if afterLeft[0].AndWord? then Both(l, r) else Either(l, r), afterRight[1..]))
    else None
  }

  function ReadingOf(p: Predicate): Reading
    requires Constructed(p) && Renders(p)
  {
    match p
    case And(l, r) => Both(ReadingOf(l), ReadingOf(r))
    case Or(l, r) => Either(ReadingOf(l), ReadingOf(r))
    case Leaf(a, BETWEEN, values, lhsFunction, rhsFunction) =>
      var slot := Call(rhsFunction, "?");
      Range([Lit(Call(lhsFunction, a))], [Slots(slot, [values[0]])], [Slots(slot, [values[1]])])
    case _ => Comparison(Fragments(p))
  }

  /** Where a predicate ends: at the end, or at a connective or a closing bracket around it. */
  predicate Ends(fs: seq<Fragment>) {
    fs == [] || fs[0].AndWord? || fs[0].OrWord? || fs[0].Close?
  }

  lemma {:induction false} RunAppend(fs: seq<Fragment>, rest: seq<Fragment>)
    ensures Run(fs) < |fs| ==> Run(fs + rest) == Run(fs)
    ensures Run(fs) == |fs| && (rest == [] || !Operand(rest[0])) ==> Run(fs + rest) == |fs|
  {
    if fs == [] {
      assert fs + rest == rest;
    } else if Operand(fs[0]) {
      assert (fs + rest)[1..] == fs[1..] + rest;
      RunAppend(fs[1..], rest);
    }
  }

  lemma ItemAppend(fs: seq<Fragment>, rest: seq<Fragment>)
    requires Item(fs) > 0 && (Ends(rest) || rest[0].BetweenWord?)
    ensures Item(fs + rest) == Item(fs)
  {
    assert (fs + rest)[1..] == fs[1..] + rest;
    RunAppend(fs[1..], rest);
  }

  /** Operands and brackets that fill `fs` are read as far as `fs` goes, whatever ends them. */
  lemma {:induction false} ItemsAppend(fs: seq<Fragment>, rest: seq<Fragment>)
    requires Items(fs) == |fs|
    requires Ends(rest) || rest[0].BetweenWord?
    ensures Items(fs + rest) == |fs|
    decreases |fs|
  {
    if fs == [] {
      assert fs + rest == rest;
    } else {
      var n := Item(fs);
      ItemAppend(fs, rest);
      assert (fs + rest)[n..] == fs[n..] + rest;
      ItemsAppend(fs[n..], rest);
    }
  }

  lemma {:induction false} InSlotsRun(values: seq<DbValue>, rest: seq<Fragment>)
    ensures Run(InSlots(values) + rest) == |InSlots(values)| + Run(rest)
    decreases |values|
  {
    if values == [] {
      assert InSlots(values) + rest == rest;
    } else {
      var init := InSlots(values[..|values| - 1]);
      var last := InSlots(values)[|init|];
      assert InSlots(values) + rest == init + ([last] + rest);
      assert ([last] + rest)[1..] == rest;
      InSlotsRun(values[..|values| - 1], [last] + rest);
    }
  }

  /** Every comparison but BETWEEN is a row of operands and bracketed operands. */
  lemma LeafItems(p: Predicate)
    requires p.Leaf? && Constructed(p) && Renders(p) && !p.op.BETWEEN?
    ensures Items(LeafFragments(p)) == |LeafFragments(p)|
  {
    var lhs := Call(p.lhsFunction, p.columnA);
    if p.op.IN? || p.op.NOT_IN? {
      InItems(Lit(" " + lhs + " " + OpString(p.op)), Open(" ( "), p.values, Close(" ) "));
    } else if !(p.op.IS_NULL? || p.op.IS_NOT_NULL?) {
      var escape := Lit(" ESCAPE '\\' ");
      CompareItems(Lit(" " + lhs + " " + OpString(p.op) + " "), Slots(Call(p.rhsFunction, "?"), [p.values[0]]), Lit(" "), if p.op.LIKE? then [escape] else []);
    }
  }

  lemma InItems(head: Fragment, open: Fragment, values: seq<DbValue>, close: Fragment)
    requires Operand(head) && open.Open? && close.Close?
    ensures var fs := [head, open] + InSlots(values) + [close]; Items(fs) == |fs|
  {
    var list := InSlots(values) + [close];
    var fs := [head, open] + InSlots(values) + [close];
    InSlotsRun(values, [close]);
    assert fs[1..] == [open] + list;
    assert fs[1..][1..] == list;
    assert Item(fs[1..]) == |list| + 1;
    assert fs[1..][|list| + 1..] == [];
  }

  lemma CompareItems(a: Fragment, b: Fragment, c: Fragment, more: seq<Fragment>)
    requires Operand(a) && Operand(b) && Operand(c) && (more == [] || (|more| == 1 && Operand(more[0])))
    ensures var fs := [a, b, c] + more; Items(fs) == |fs|
  {
    var fs := [a, b, c] + more;
    assert Items(more) == |more| by {
      if more != [] { assert more[1..] == []; }
    }
    assert fs[1..] == [b, c] + more && fs[1..][1..] == [c] + more && fs[1..][1..][1..] == more;
    assert Items([c] + more) == 1 + |more|;
    assert Items([b, c] + more) == 2 + |more|;
  }

  lemma BracketItem(open: string, inner: Fragment, close: string, rest: seq<Fragment>)
    requires Operand(inner) && Items(rest) == |rest|
    ensures var fs := [Open(open), inner, Close(close)] + rest; Item(fs) == 3 && Items(fs) == |fs|
  {
    var fs := [Open(open), inner, Close(close)] + rest;
    assert fs[1..][0] == inner && fs[1..][1..][0] == Close(close);
    assert Run(fs[1..][1..]) == 0;
    assert Run(fs[1..]) == 1;
    assert Item(fs) == 3;
    assert fs[3..] == rest;
  }

  lemma OperandItems(f: Fragment, rest: seq<Fragment>)
    requires Operand(f) && Items(rest) == |rest|
    ensures Items([f] + rest) == 1 + |rest|
  {
    assert ([f] + rest)[1..] == rest;
  }

  lemma SubQueryItems(fn: string, column: Fragment, op: Fragment, query: Fragment, open1: string, close1: string, open2: string, close2: string)
    requires Operand(column) && Operand(op) && Operand(query)
    ensures var fs := (if fn == "" then [] else [Lit(fn)]) + ([Open(open1), column, Close(close1)] + [op] + [Open(open2), query, Close(close2)]);
      Items(fs) == |fs|
  {
    var q := [Open(open2), query, Close(close2)];
    assert q + [] == q;
    BracketItem(open2, query, close2, []);
    OperandItems(op, q);
    var f := [Open(open1), column, Close(close1)] + ([op] + q);
    BracketItem(open1, column, close1, [op] + q);
    assert [Open(open1), column, Close(close1)] + [op] + q == f;
    OperandItems(Lit(fn), f);
    assert [] + f == f;
  }

  lemma AtomItems(p: Predicate)
    requires !p.Leaf? && !p.IsGroup()
    ensures Items(Fragments(p)) == |Fragments(p)|
  {
    match p
    case SubQuery(a, op, sql, values, fn) => SubQueryItems(fn, Lit(a), Lit(OpString(op)), Slots(sql, values), "(", ") ", " ( ", " ) ");
    case Exists(sql, values) => ExistsItems(" EXISTS ", sql, values);
    case NotExists(sql, values) => ExistsItems(" NOT EXISTS ", sql, values);
    case _ =>
  }

  lemma ExistsItems(word: string, sql: string, values: seq<DbValue>)
    ensures Items(ExistsFragments(word, sql, values)) == |ExistsFragments(word, sql, values)|
  {
    var rest := [Open("("), Slots(sql, values), Close(") ")];
    assert rest + [] == rest;
    BracketItem("(", Slots(sql, values), ") ", []);
    assert ExistsFragments(word, sql, values) == [Lit(word)] + rest;
    OperandItems(Lit(word), rest);
  }

  /** A predicate followed by a connective is never a bracketed row of operands: the connective comes before any closing bracket. */
  lemma {:induction false} NoPlainBracket(p: Predicate, rest: seq<Fragment>)
    requires Constructed(p) && Renders(p)
    requires rest != [] && (rest[0].AndWord? || rest[0].OrWord?)
    ensures var fs := Fragments(p) + rest; Run(fs) < |fs| && !fs[Run(fs)].Close?
  {
    var fs := Fragments(p) + rest;
    var mine := Fragments(p);
    RunAppend(mine, rest);
    if Run(mine) < |mine| {
      FirstStop(p);
    }
  }

  /** The first thing in a rendering that is not an operand is not a closing bracket. */
  lemma FirstStop(p: Predicate)
    requires Constructed(p) && Renders(p)
    ensures var fs := Fragments(p); Run(fs) < |fs| ==> !fs[Run(fs)].Close?
  {
    var fs := Fragments(p);
    match p
    case Leaf(_, op, values, lhsFunction, rhsFunction) =>
      if op.IN? || op.NOT_IN? || op.BETWEEN? {
        SecondStops(fs);
      } else if !(op.IS_NULL? || op.IS_NOT_NULL?) {
        assert forall i :: 0 <= i < |fs| ==> !fs[i].Close?;
      }
    case SubQuery(a, op, sql, values, fn) =>
      if fn != "" { SecondStops(fs); }
    case Exists(sql, values) => SecondStops(fs);
    case NotExists(sql, values) => SecondStops(fs);
    case _ =>
  }

  lemma SecondStops(fs: seq<Fragment>)
    requires |fs| > 1 && Operand(fs[0]) && (fs[1].Open? || fs[1].BetweenWord?)
    ensures Run(fs) == 1
  {
    assert Run(fs[1..]) == 0;
  }

  lemma OneItem(f: Fragment, rest: seq<Fragment>)
    requires Operand(f) && (Ends(rest) || rest[0].BetweenWord?)
    ensures Items([f] + rest) == 1 && ([f] + rest)[..1] == [f] && ([f] + rest)[1..] == rest
  {
    assert ([f] + rest)[1..] == rest;
  }

  lemma RangeReadsBack(subject: Fragment, low: Fragment, high: Fragment, rest: seq<Fragment>)
    requires Operand(subject) && Operand(low) && Operand(high) && Ends(rest)
    ensures Read([subject, BetweenWord, low, AndWord, high] + rest) == Some((Range([subject], [low], [high]), rest))
  {
    var bounds := [low] + ([AndWord] + ([high] + rest));
    assert [subject, BetweenWord, low, AndWord, high] + rest == [subject] + ([BetweenWord] + bounds);
    ReadRange(subject, low, high, rest);
  }

  lemma ReadRange(subject: Fragment, low: Fragment, high: Fragment, rest: seq<Fragment>)
    requires Operand(subject) && Operand(low) && Operand(high) && Ends(rest)
    ensures Read([subject] + ([BetweenWord] + ([low] + ([AndWord] + ([high] + rest))))) == Some((Range([subject], [low], [high]), rest))
  {
    var upper := [high] + rest;
    var bounds := [low] + ([AndWord] + upper);
    var fs := [subject] + ([BetweenWord] + bounds);
    OneItem(subject, [BetweenWord] + bounds);
    OneItem(low, [AndWord] + upper);
    OneItem(high, rest);
    SkipTwo(subject, BetweenWord, bounds);
    SkipTwo(low, AndWord, upper);
  }

  lemma SkipTwo(a: Fragment, b: Fragment, rest: seq<Fragment>)
    ensures var fs := [a] + ([b] + rest); |fs| >= 2 && fs[1] == b && fs[2..] == rest
  {}

  lemma GroupReadsBack(left: seq<Fragment>, l: Reading, word: Fragment, right: seq<Fragment>, r: Reading, rest: seq<Fragment>)
    requires word.AndWord? || word.OrWord?
    requires var inner := left + ([word] + (right + ([Close(")")] + rest)));
      && Run(inner) < |inner| && !inner[Run(inner)].Close?
      && Read(inner) == Some((l, [word] + (right + ([Close(")")] + rest))))
    requires Read(right + ([Close(")")] + rest)) == Some((r, [Close(")")] + rest))
    ensures Read(GroupFragments(left, word, right) + rest) == Some((if word.AndWord? then Both(l, r) else Either(l, r), rest))
  {
    var afterRight := [Close(")")] + rest;
    var afterLeft := [word] + (right + afterRight);
    Nest([Open("(")], left, [word], right, [Close(")")], rest);
    ReadGroup(Open("("), left + afterLeft, l, word, right + afterRight, r, Close(")"), rest);
  }

  lemma Nest(a: seq<Fragment>, b: seq<Fragment>, c: seq<Fragment>, d: seq<Fragment>, e: seq<Fragment>, rest: seq<Fragment>)
    ensures a + b + c + d + e + rest == a + (b + (c + (d + (e + rest))))
  {}

  lemma ReadGroup(open: Fragment, inner: seq<Fragment>, l: Reading, word: Fragment, afterWord: seq<Fragment>, r: Reading, close: Fragment, rest: seq<Fragment>)
    requires open.Open? && close.Close?
    requires word.AndWord? || word.OrWord?
    requires Run(inner) < |inner| && !inner[Run(inner)].Close?
    requires Read(inner) == Some((l, [word] + afterWord))
    requires Read(afterWord) == Some((r, [close] + rest))
    ensures Read([open] + inner) == Some((if word.AndWord? then Both(l, r) else Either(l, r), rest))
  {
    var fs := [open] + inner;
    assert fs[1..] == inner;
    assert Items(fs) == 0;
    assert ([word] + afterWord)[1..] == afterWord;
    assert ([close] + rest)[1..] == rest;
  }

  /**
   * The rendering of a predicate is read back as the same tree, whatever follows it, and although BETWEEN
   * brings an AND of its own.
   */
  lemma {:induction false} ReadsBack(p: Predicate, rest: seq<Fragment>)
    requires Constructed(p) && Renders(p) && Ends(rest)
    ensures Read(Fragments(p) + rest) == Some((ReadingOf(p), rest))
  {
    var fs := Fragments(p);
    if p.IsGroup() {
      var word := if p.And? then AndWord else OrWord;
      var afterRight := [Close(")")] + rest;
      var afterLeft := [word] + (Fragments(p.right) + afterRight);
      NoPlainBracket(p.left, afterLeft);
      ReadsBack(p.left, afterLeft);
      ReadsBack(p.right, afterRight);
      GroupReadsBack(Fragments(p.left), ReadingOf(p.left), word, Fragments(p.right), ReadingOf(p.right), rest);
    } else if p.Leaf? && p.op.BETWEEN? {
      var slot := Call(p.rhsFunction, "?");
      RangeReadsBack(Lit(Call(p.lhsFunction, p.columnA)), Slots(slot, [p.values[0]]), Slots(slot, [p.values[1]]), rest);
    } else {
      if p.Leaf? { LeafItems(p); } else { AtomItems(p); }
      ItemsRead(fs, rest);
    }
  }

  lemma ItemsRead(fs: seq<Fragment>, rest: seq<Fragment>)
    requires fs != [] && Items(fs) == |fs| && Ends(rest)
    ensures Read(fs + rest) == Some((Comparison(fs), rest))
  {
    ItemsAppend(fs, rest);
    assert (fs + rest)[..|fs|] == fs;
    assert (fs + rest)[|fs|..] == rest;
  }
}
