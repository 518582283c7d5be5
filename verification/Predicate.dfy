/**
 * Predicate trees of the query builder: their three-valued meaning, their rendering to SQL with parameters,
 * and the reading of that rendering.
 */
module Predicate {
  import opened Wrappers
  import opened Placeholders

  datatype Operator =
    | EQUALS | NOT_EQUALS | GREATER | LESSER | GREATER_OR_EQUAL | LESSER_OR_EQUAL
    | LIKE | IN | NOT_IN | IS_NULL | IS_NOT_NULL | BETWEEN

  function OpString(op: Operator): string {
    match op
    case EQUALS => "="
    case NOT_EQUALS => "!="
    case GREATER => ">"
    case LESSER => "<"
    case GREATER_OR_EQUAL => ">="
    case LESSER_OR_EQUAL => "<="
    case LIKE => "LIKE"
    case IN => "IN"
    case NOT_IN => "NOT IN"
    case IS_NULL => "IS NULL"
    case IS_NOT_NULL => "IS NOT NULL"
    case BETWEEN => "BETWEEN"
  }

  /** Subqueries are held rendered: their text and their parameters. */
  datatype Predicate =
    | Leaf(columnA: string, op: Operator, values: seq<DbValue>, lhsFunction: string, rhsFunction: string)
    | And(left: Predicate, right: Predicate)
    | Or(left: Predicate, right: Predicate)
    | True
    | False
    | Str(text: string, values: seq<DbValue>)
    | FieldComparison(columnA: string, op: Operator, columnB: string)
    | SubQuery(columnA: string, op: Operator, columnB: string, values: seq<DbValue>, lhsFunction: string)
    | Exists(text: string, values: seq<DbValue>)
    | NotExists(text: string, values: seq<DbValue>)
    | Raw(columnA: string, op: Operator, columnB: string, values: seq<DbValue>)
  {
    predicate IsGroup() { And? || Or? }

    /** `operator||` */
    function OrElse(rhs: Predicate): Predicate {
      if True? || rhs.True? then True
      else if False? then rhs
      else if rhs.False? then this
      else Or(this, rhs)
    }

    /** `operator&&` */
    function AndAlso(rhs: Predicate): Predicate {
      if False? || rhs.False? then False
      else if True? then rhs
      else if rhs.True? then this
      else And(this, rhs)
    }
  }

  // ---------------------------------------------------------------- three-valued meaning

  datatype Truth = T | F | Unknown

  function And3(a: Truth, b: Truth): Truth {
    if a.F? || b.F? then F else if a.T? && b.T? then T else Unknown
  }

  function Or3(a: Truth, b: Truth): Truth {
    if a.T? || b.T? then T else if a.F? && b.F? then F else Unknown
  }

  /** The value of a predicate on a row, given that of each comparison. */
  function Eval(p: Predicate, row: Predicate -> Truth): Truth {
    match p
    case And(l, r) => And3(Eval(l, row), Eval(r, row))
    case Or(l, r) => Or3(Eval(l, row), Eval(r, row))
    case True => T
    case False => F
    case _ => row(p)
  }

  datatype Connective = WHERE | OR_WHERE

  /** The conditions joined one after the other with nothing simplified; none at all keeps every row. */
  function Unsimplified(steps: seq<(Connective, Predicate)>): Option<Predicate> {
    if steps == [] then None
    else
      var (c, p) := steps[|steps| - 1];
      match Unsimplified(steps[..|steps| - 1])
      case None => Some(p)
      case Some(q) => Some(if c.WHERE? then And(q, p) else Or(q, p))
  }

  /** A constant never survives inside a larger predicate. */
  predicate ConstantFree(p: Predicate) {
    match p
    case And(l, r) => ConstantFree(l) && ConstantFree(r)
    case Or(l, r) => ConstantFree(l) && ConstantFree(r)
    case True => false
    case False => false
    case _ => true
  }

  predicate Simplified(p: Predicate) { p.True? || p.False? || ConstantFree(p) }

  lemma SimplifiedJoin(q: Predicate, p: Predicate, row: Predicate -> Truth)
    ensures Eval(q.AndAlso(p), row) == And3(Eval(q, row), Eval(p, row))
    ensures Eval(q.OrElse(p), row) == Or3(Eval(q, row), Eval(p, row))
    ensures Simplified(q) && Simplified(p) ==> Simplified(q.AndAlso(p)) && Simplified(q.OrElse(p))
  {}

  class WhereClause {
    var wherePredicate: Option<Predicate>
    /** The calls made so far. */
    ghost var steps: seq<(Connective, Predicate)>

    /** On every row the accumulated predicate has the value of the unsimplified one. */
    ghost predicate Valid() reads this {
      var plain := Unsimplified(steps);
      && (wherePredicate.Some? <==> plain.Some?)
      && (plain.Some? ==> forall row :: Eval(wherePredicate.value, row) == Eval(plain.value, row))
      && ((forall i :: 0 <= i < |steps| ==> Simplified(steps[i].1)) && plain.Some? ==> Simplified(wherePredicate.value))
    }

    constructor ()
      ensures Valid() && steps == [] && wherePredicate == None
    {
      wherePredicate, steps := None, [];
    }

    method Where(p: Predicate)
      requires Valid()
      modifies this
      ensures Valid() && steps == old(steps) + [(WHERE, p)]
      ensures wherePredicate == Some(match old(wherePredicate) case None => p case Some(q) => q.AndAlso(p))
    {
      if wherePredicate.None? {
        wherePredicate := Some(p);
      } else {
        forall row { SimplifiedJoin(wherePredicate.value, p, row); }
        wherePredicate := Some(wherePredicate.value.AndAlso(p));
      }
      ghost var before := steps;
      steps := steps + [(WHERE, p)];
      assert steps[..|steps| - 1] == before;
      assert steps[|steps| - 1] == (WHERE, p);
    }

    method AndWhere(p: Predicate)
      requires Valid()
      modifies this
      ensures Valid() && steps == old(steps) + [(WHERE, p)]
      ensures wherePredicate == Some(match old(wherePredicate) case None => p case Some(q) => q.AndAlso(p))
    {
      Where(p);
    }

    method OrWhere(p: Predicate)
      requires Valid()
      modifies this
      ensures Valid() && steps == old(steps) + [(OR_WHERE, p)]
      ensures wherePredicate == Some(match old(wherePredicate) case None => p case Some(q) => q.OrElse(p))
    {
      if wherePredicate.None? {
        wherePredicate := Some(p);
      } else {
        forall row { SimplifiedJoin(wherePredicate.value, p, row); }
        wherePredicate := Some(wherePredicate.value.OrElse(p));
      }
      ghost var before := steps;
      steps := steps + [(OR_WHERE, p)];
      assert steps[..|steps| - 1] == before;
      assert steps[|steps| - 1] == (OR_WHERE, p);
    }
  }
}
