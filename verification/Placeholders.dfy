/**
 * SQL text with positional parameters. A statement is a string with `?` placeholders and a separate list of
 * values; the database binds the i-th placeholder to the i-th value.
 */
module Placeholders {
  import opened Wrappers

  datatype DbValue = Null | Integer(i: int) | Text(s: string)

  function CountQ(s: string): nat {
    if s == "" then 0 else CountQ(s[..|s| - 1]) + if s[|s| - 1] == '?' then 1 else 0
  }

  predicate NoQ(s: string) { '?' !in s }

  /** A character of a bound statement: text, or a value in the place of a placeholder. */
  datatype Cell = Ch(c: char) | Bound(v: DbValue)

  /** What the database makes of a statement. */
  function Bind(s: string, params: seq<DbValue>): (r: seq<Cell>)
    requires CountQ(s) == |params|
    ensures |r| == |s|
  {
    if s == "" then []
    else if s[|s| - 1] == '?' then Bind(s[..|s| - 1], params[..|params| - 1]) + [Bound(params[|params| - 1])]
    else Bind(s[..|s| - 1], params) + [Ch(s[|s| - 1])]
  }

  lemma {:induction false} CountConcat(s: string, t: string)
    ensures CountQ(s + t) == CountQ(s) + CountQ(t)
  {
    if t == "" {
      assert s + t == s;
    } else {
      assert (s + t)[..|s + t| - 1] == s + t[..|t| - 1];
      CountConcat(s, t[..|t| - 1]);
    }
  }

  lemma {:induction false} CountNoQ(s: string)
    requires NoQ(s)
    ensures CountQ(s) == 0
  {
    if s != "" { CountNoQ(s[..|s| - 1]); }
  }

  lemma {:induction false} BindConcat(s: string, t: string, ps: seq<DbValue>, qs: seq<DbValue>)
    requires CountQ(s) == |ps| && CountQ(t) == |qs|
    ensures CountQ(s + t) == |ps + qs| && Bind(s + t, ps + qs) == Bind(s, ps) + Bind(t, qs)
  {
    CountConcat(s, t);
    if t == "" {
      assert s + t == s && ps + qs == ps;
    } else {
      var t' := t[..|t| - 1];
      BindConcat(s, t', ps, if t[|t| - 1] == '?' then qs[..|qs| - 1] else qs);
      assert (s + t)[..|s + t| - 1] == s + t';
      if t[|t| - 1] == '?' { assert (ps + qs)[..|ps + qs| - 1] == ps + qs[..|qs| - 1]; }
    }
  }

  /** The i-th placeholder is the slot of the i-th parameter, and everything else is text. */
  lemma {:induction false} BindSlot(s: string, params: seq<DbValue>, k: nat)
    requires CountQ(s) == |params| && k < |s|
    ensures CountQ(s[..k]) + CountQ(s[k..]) == |params|
    ensures s[k] == '?' ==> CountQ(s[..k]) < |params| && Bind(s, params)[k] == Bound(params[CountQ(s[..k])])
    ensures s[k] != '?' ==> Bind(s, params)[k] == Ch(s[k])
  {
    var n := |s| - 1;
    assert s[..k] + s[k..] == s;
    CountConcat(s[..k], s[k..]);
    if k < n {
      assert s[..n][..k] == s[..k];
      BindSlot(s[..n], if s[n] == '?' then params[..|params| - 1] else params, k);
    }
  }

  // ---------------------------------------------------------------- fragments

  /**
   * A piece of a statement: fixed text, or text with placeholders next to the values meant for them.
   * The words and brackets the predicate grammar consists of are pieces of their own.
   */
  datatype Fragment =
    | Lit(text: string)
    | Slots(text: string, values: seq<DbValue>)
    | Open(text: string)
    | Close(text: string)
    | AndWord | OrWord | BetweenWord
  {
    function Sql(): string {
      match this
      case AndWord => " AND "
      case OrWord => " OR "
      case BetweenWord => " BETWEEN "
      case _ => text
    }

    function Params(): seq<DbValue> { if Slots? then values else [] }

    /** As many placeholders as values: for fixed text, none. */
    predicate Balanced() { CountQ(Sql()) == |Params()| }

    function Meaning(): seq<Cell>
      requires Balanced()
    { Bind(Sql(), Params()) }
  }

  function Sql(fs: seq<Fragment>): string {
    if fs == [] then "" else Sql(fs[..|fs| - 1]) + fs[|fs| - 1].Sql()
  }

  function Params(fs: seq<Fragment>): seq<DbValue> {
    if fs == [] then [] else Params(fs[..|fs| - 1]) + fs[|fs| - 1].Params()
  }

  predicate Balanced(fs: seq<Fragment>) {
    forall i :: 0 <= i < |fs| ==> fs[i].Balanced()
  }

  /** Every fragment with its own values in its own placeholders. */
  function Meaning(fs: seq<Fragment>): seq<Cell>
    requires Balanced(fs)
  {
    if fs == [] then [] else Meaning(fs[..|fs| - 1]) + fs[|fs| - 1].Meaning()
  }

  /** Concatenating texts and, separately, values binds every fragment's values to that fragment's placeholders. */
  lemma {:induction false} Aligned(fs: seq<Fragment>)
    requires Balanced(fs)
    ensures CountQ(Sql(fs)) == |Params(fs)|
    ensures Bind(Sql(fs), Params(fs)) == Meaning(fs)
  {
    if fs != [] {
      var init, last := fs[..|fs| - 1], fs[|fs| - 1];
      Aligned(init);
      BindConcat(Sql(init), last.Sql(), Params(init), last.Params());
    }
  }

  lemma Regroup<T>(a: seq<T>, b: seq<T>, c: seq<T>)
    ensures a + b + c == a + (b + c)
  {}

  lemma {:induction false} SqlConcat(fs: seq<Fragment>, gs: seq<Fragment>)
    ensures Sql(fs + gs) == Sql(fs) + Sql(gs)
  {
    if gs == [] {
      assert fs + gs == fs;
    } else {
      var init, last := gs[..|gs| - 1], gs[|gs| - 1];
      assert (fs + gs)[..|fs + gs| - 1] == fs + init;
      SqlConcat(fs, init);
      Regroup(Sql(fs), Sql(init), last.Sql());
    }
  }

  lemma {:induction false} ParamsConcat(fs: seq<Fragment>, gs: seq<Fragment>)
    ensures Params(fs + gs) == Params(fs) + Params(gs)
  {
    if gs == [] {
      assert fs + gs == fs;
    } else {
      var init, last := gs[..|gs| - 1], gs[|gs| - 1];
      assert (fs + gs)[..|fs + gs| - 1] == fs + init;
      ParamsConcat(fs, init);
      Regroup(Params(fs), Params(init), last.Params());
    }
  }

  lemma FragmentsConcat(fs: seq<Fragment>, gs: seq<Fragment>)
    ensures Sql(fs + gs) == Sql(fs) + Sql(gs)
    ensures Params(fs + gs) == Params(fs) + Params(gs)
  {
    SqlConcat(fs, gs);
    ParamsConcat(fs, gs);
  }
}
