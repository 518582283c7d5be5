/**
 * Symmetric many-to-many relations. One relation on unordered pairs is stored in a table of ordered pairs in one of
 * three ways; each operation has to keep its table's shape and to mean the same in all of them.
 */
module Relations {
  type Key = seq<int>

  datatype SymmetryMode = SINGLE_ROW | DOUBLE_ROW | DB_SINGLE_ROW

  datatype Side = A | B

  /** A column of the through table, filled from a column of the model on one side. */
  datatype ThroughField = ThroughField(side: Side, column: nat)

  datatype Row = Row(a: Key, b: Key, extra: int) {
    function Pair(): (Key, Key) { (a, b) }
    /** `mirrorThroughObj` */
    function Mirror(): Row { Row(b, a, extra) }
  }

  type Table = map<(Key, Key), int>

  // ---------------------------------------------------------------- the order of keys

  /** The first position at which two keys differ. */
  function FirstDifference(x: Key, y: Key): (i: nat)
    requires |x| == |y|
    ensures i <= |x| && (i < |x| ==> x[i] != y[i]) && x[..i] == y[..i]
    decreases |x|
  {
    if x == [] then 0
    else if x[0] != y[0] then 0
    else
      var i := 1 + FirstDifference(x[1..], y[1..]);
      assert x[..i] == [x[0]] + x[1..][..i - 1] && y[..i] == [y[0]] + y[1..][..i - 1];
      i
  }

  lemma FirstDifferenceIs(x: Key, y: Key, i: nat)
    requires |x| == |y| && i <= |x| && x[..i] == y[..i] && (i < |x| ==> x[i] != y[i])
    ensures FirstDifference(x, y) == i
  {
    var j := FirstDifference(x, y);
    assert forall k :: 0 <= k < i ==> x[k] == x[..i][k] && y[k] == y[..i][k];
    assert forall k :: 0 <= k < j ==> x[k] == x[..j][k] && y[k] == y[..j][k];
  }

  predicate Less(x: Key, y: Key)
    requires |x| == |y|
  {
    var i := FirstDifference(x, y);
    i < |x| && x[i] < y[i]
  }

  lemma LessIsTotal(x: Key, y: Key)
    requires |x| == |y|
    ensures Less(x, y) ==> !Less(y, x)
    ensures !Less(x, y) && !Less(y, x) <==> x == y
  {
    var i := FirstDifference(x, y);
    FirstDifferenceIs(y, x, i);
    if i == |x| {
      assert x[..i] == x && y[..i] == y;
    }
  }

  // ---------------------------------------------------------------- through fields

  function Columns(fields: seq<ThroughField>, side: Side): seq<nat> {
    if fields == [] then []
    else Columns(fields[..|fields| - 1], side) + if fields[|fields| - 1].side == side then [fields[|fields| - 1].column] else []
  }

  predicate Within(fields: seq<ThroughField>, obj: seq<int>) { forall i :: 0 <= i < |fields| ==> fields[i].column < |obj| }

  function ValuesAt(columns: seq<nat>, obj: seq<int>): (k: Key)
    requires forall i :: 0 <= i < |columns| ==> columns[i] < |obj|
    ensures |k| == |columns|
  {
    seq(|columns|, i requires 0 <= i < |columns| => obj[columns[i]])
  }

  lemma {:induction false} ColumnsWithin(fields: seq<ThroughField>, side: Side, n: nat)
    requires forall i :: 0 <= i < |fields| ==> fields[i].column < n
    ensures forall i :: 0 <= i < |Columns(fields, side)| ==> Columns(fields, side)[i] < n
  {
    if fields != [] { ColumnsWithin(fields[..|fields| - 1], side, n); }
  }

  /** The key of an object on one side of the relation. */
  function KeyOf(fields: seq<ThroughField>, side: Side, obj: seq<int>): (k: Key)
    requires Within(fields, obj)
    ensures |k| == |Columns(fields, side)|
  {
    ColumnsWithin(fields, side, |obj|);
    ValuesAt(Columns(fields, side), obj)
  }

  /** Both sides of a symmetric relation list the model's columns in the same order, however they are interleaved. */
  predicate Aligned(fields: seq<ThroughField>) { Columns(fields, A) == Columns(fields, B) }

  lemma {:induction false} ColumnsPrefix(fields: seq<ThroughField>, side: Side, p: nat)
    requires p < |fields| && fields[p].side == side
    ensures var before, all := Columns(fields[..p], side), Columns(fields, side);
      |before| < |all| && all[..|before|] == before && all[|before|] == fields[p].column
  {
    var n := |fields| - 1;
    if p < n {
      assert fields[..n][..p] == fields[..p];
      ColumnsPrefix(fields[..n], side, p);
    }
  }

  lemma {:induction false} EqualColumns(fields: seq<ThroughField>, side: Side, self: seq<int>, other: seq<int>)
    requires Within(fields, self) && Within(fields, other)
    requires forall i :: 0 <= i < |fields| ==> self[fields[i].column] == other[fields[i].column]
    ensures KeyOf(fields, side, self) == KeyOf(fields, side, other)
  {
    if fields != [] {
      var n := |fields| - 1;
      EqualColumns(fields[..n], side, self, other);
      var last := if fields[n].side == side then [fields[n].column] else [];
      assert KeyOf(fields, side, self) == KeyOf(fields[..n], side, self) + seq(|last|, i requires 0 <= i < |last| => self[last[i]]);
      assert KeyOf(fields, side, other) == KeyOf(fields[..n], side, other) + seq(|last|, i requires 0 <= i < |last| => other[last[i]]);
    }
  }

  /** The first through field on which the objects differ decides the order of their keys, whichever side it belongs to. */
  lemma DecidedAt(fields: seq<ThroughField>, self: seq<int>, other: seq<int>, p: nat)
    requires Within(fields, self) && Within(fields, other) && Aligned(fields) && p < |fields|
    requires forall i :: 0 <= i < p ==> self[fields[i].column] == other[fields[i].column]
    requires self[fields[p].column] != other[fields[p].column]
    ensures Less(KeyOf(fields, A, self), KeyOf(fields, A, other)) <==> self[fields[p].column] < other[fields[p].column]
  {
    var side := fields[p].side;
    var x, y := KeyOf(fields, side, self), KeyOf(fields, side, other);
    ColumnsPrefix(fields, side, p);
    EqualColumns(fields[..p], side, self, other);
    var n := |Columns(fields[..p], side)|;
    assert x[..n] == KeyOf(fields[..p], side, self);
    assert y[..n] == KeyOf(fields[..p], side, other);
    FirstDifferenceIs(x, y, n);
    assert x == KeyOf(fields, A, self) && y == KeyOf(fields, A, other);
  }

  /** `isSelfSmallerThan`: a pass over the through fields of both sides compares the keys. */
  method IsSelfSmallerThan(fields: seq<ThroughField>, self: seq<int>, other: seq<int>) returns (smaller: bool)
    requires Within(fields, self) && Within(fields, other) && Aligned(fields)
    ensures smaller <==> Less(KeyOf(fields, A, self), KeyOf(fields, A, other))
  {
    smaller := false;
    var decided := false;
    var i := 0;
    while i < |fields|
      invariant 0 <= i <= |fields|
      invariant decided ==> (smaller <==> Less(KeyOf(fields, A, self), KeyOf(fields, A, other)))
      invariant !decided ==> !smaller && forall j :: 0 <= j < i ==> self[fields[j].column] == other[fields[j].column]
    {
      if !decided {
        var lhs, rhs := self[fields[i].column], other[fields[i].column];
        if lhs < rhs {
          DecidedAt(fields, self, other, i);
          decided, smaller := true, true;
        } else if rhs < lhs {
          DecidedAt(fields, self, other, i);
          decided := true;
        }
      }
      i := i + 1;
    }
    if !decided {
      EqualColumns(fields, A, self, other);
      LessIsTotal(KeyOf(fields, A, self), KeyOf(fields, A, other));
    }
  }

  /** The comparison made when a through object is stored in one direction. */
  method InOrder(r: Row) returns (correct: bool)
    requires |r.a| == |r.b|
    ensures correct <==> !Less(r.b, r.a)
  {
    correct := true;
    var decided := false;
    var i := 0;
    while i < |r.a|
      invariant 0 <= i <= |r.a|
      invariant decided ==> (correct <==> !Less(r.b, r.a))
      invariant !decided ==> correct && r.a[..i] == r.b[..i]
    {
      if !decided {
        if r.a[i] < r.b[i] {
          FirstDifferenceIs(r.b, r.a, i);
          decided := true;
        } else if r.b[i] < r.a[i] {
          FirstDifferenceIs(r.b, r.a, i);
          decided, correct := true, false;
        }
      }
      i := i + 1;
    }
    if !decided {
      assert r.a[..i] == r.a && r.b[..i] == r.b;
      LessIsTotal(r.a, r.b);
    }
  }

  // ---------------------------------------------------------------- tables

  predicate Uniform(t: Table, n: nat) { forall p <- t :: |p.0| == n && |p.1| == n }

  function Swap(p: (Key, Key)): (Key, Key) { (p.1, p.0) }

  /** The shape each mode keeps its table in. */
  predicate Shape(mode: SymmetryMode, t: Table, n: nat) {
    && Uniform(t, n)
    && match mode
       case DOUBLE_ROW => forall p <- t :: Swap(p) in t && t[Swap(p)] == t[p]
       case SINGLE_ROW => forall p <- t :: p.0 != p.1 ==> Swap(p) !in t
       case DB_SINGLE_ROW => forall p <- t :: !Less(p.1, p.0)
  }

  /** The unordered pair, written with its smaller key first. */
  function Norm(p: (Key, Key)): (q: (Key, Key))
    requires |p.0| == |p.1|
    ensures q == p || q == Swap(p)
  {
    if Less(p.1, p.0) then Swap(p) else p
  }

  lemma NormSwap(p: (Key, Key))
    requires |p.0| == |p.1|
    ensures Norm(Swap(p)) == Norm(p) && Norm(Norm(p)) == Norm(p)
  {
    LessIsTotal(p.0, p.1);
  }

  lemma SamePair(p: (Key, Key), q: (Key, Key))
    requires |p.0| == |p.1| == |q.0| == |q.1|
    ensures Norm(p) == Norm(q) <==> p == q || p == Swap(q)
  {
    NormSwap(q);
  }

  predicate Related(t: Table, p: (Key, Key)) { p in t || Swap(p) in t }

  function ExtraOf(t: Table, p: (Key, Key)): int
    requires Related(t, p)
  {
    if p in t then t[p] else t[Swap(p)]
  }

  /** The relation a table stores. */
  ghost function Relation(t: Table, n: nat): map<(Key, Key), int>
    requires Uniform(t, n)
  {
    map q | q in (set p | p in t :: Norm(p)) && Related(t, q) :: ExtraOf(t, q)
  }

  lemma RelationHolds(t: Table, n: nat, p: (Key, Key))
    requires Uniform(t, n) && |p.0| == |p.1| == n
    ensures Norm(p) in Relation(t, n) <==> Related(t, p)
    ensures Related(t, p) ==> Relation(t, n)[Norm(p)] == ExtraOf(t, Norm(p))
  {
    NormSwap(p);
    if Related(t, p) {
      var q := if p in t then p else Swap(p);
      assert q in t && Norm(q) == Norm(p);
    }
    if Norm(p) in Relation(t, n) {
      var q :| q in t && Norm(q) == Norm(p);
      SamePair(p, q);
    }
  }

  lemma RelationIs(t: Table, n: nat, r: map<(Key, Key), int>)
    requires Uniform(t, n)
    requires forall q <- r :: |q.0| == |q.1| == n && Norm(q) == q
    requires forall p: (Key, Key) :: |p.0| == |p.1| == n ==> Stores(t, r, p)
    ensures Relation(t, n) == r
  {
    forall q | q in Relation(t, n) ensures q in r && Relation(t, n)[q] == r[q] {
      var p :| p in t && Norm(p) == q;
      assert Stores(t, r, p);
      RelationHolds(t, n, p);
    }
    forall q | q in r ensures q in Relation(t, n) {
      assert Stores(t, r, q);
      RelationHolds(t, n, q);
    }
  }

  /** The table says of a pair what the relation says of it. */
  predicate Stores(t: Table, r: map<(Key, Key), int>, p: (Key, Key))
    requires |p.0| == |p.1|
  {
    && (Norm(p) in r <==> Related(t, p))
    && (Related(t, p) ==> r[Norm(p)] == ExtraOf(t, Norm(p)))
  }

  // ---------------------------------------------------------------- operations on tables

  const DEFAULT_EXTRA := 0

  /** `ON CONFLICT DO NOTHING` */
  function Inserted(t: Table, r: Row): Table { if r.Pair() in t then t else t[r.Pair() := r.extra] }

  /** `ON CONFLICT DO UPDATE` */
  function Upserted(t: Table, r: Row): Table { t[r.Pair() := r.extra] }

  function AddedTo(mode: SymmetryMode, t: Table, self: Key, other: Key): Table
    requires |self| == |other|
  {
    match mode
    case DOUBLE_ROW => Inserted(Inserted(t, Row(self, other, DEFAULT_EXTRA)), Row(other, self, DEFAULT_EXTRA))
    case SINGLE_ROW =>
      if Related(t, (self, other)) then t
      else Inserted(t, if Less(self, other) then Row(self, other, DEFAULT_EXTRA) else Row(other, self, DEFAULT_EXTRA))
    case DB_SINGLE_ROW =>
      Inserted(t, if Less(self, other) then Row(self, other, DEFAULT_EXTRA) else Row(other, self, DEFAULT_EXTRA))
  }

  function UpsertedIn(mode: SymmetryMode, t: Table, r: Row): Table
    requires |r.a| == |r.b|
  {
    match mode
    case DOUBLE_ROW => Upserted(Upserted(t, r), r.Mirror())
    case SINGLE_ROW => Upserted(t, if r.Mirror().Pair() in t then r.Mirror() else r)
    case DB_SINGLE_ROW => Upserted(t, if Less(r.b, r.a) then r.Mirror() else r)
  }

  function RemovedFrom(t: Table, self: Key, other: Key): Table { t - {(self, other), (other, self)} }

  // ---------------------------------------------------------------- what they mean

  ghost predicate Refines(mode: SymmetryMode, t: Table, n: nat, r: map<(Key, Key), int>) {
    Shape(mode, t, n) && r == Relation(t, n)
  }

  lemma RefinesStores(mode: SymmetryMode, t: Table, n: nat, r: map<(Key, Key), int>, p: (Key, Key))
    requires Refines(mode, t, n, r) && |p.0| == |p.1| == n
    ensures Stores(t, r, p)
  {
    RelationHolds(t, n, p);
  }

  lemma RelationKeys(t: Table, n: nat)
    requires Uniform(t, n)
    ensures forall q <- Relation(t, n) :: |q.0| == |q.1| == n && Norm(q) == q
  {
    forall q | q in Relation(t, n) ensures |q.0| == |q.1| == n && Norm(q) == q {
      var p :| p in t && Norm(p) == q;
      NormSwap(p);
    }
  }

  lemma AddShape(mode: SymmetryMode, t: Table, n: nat, self: Key, other: Key)
    requires Shape(mode, t, n) && |self| == |other| == n
    ensures Shape(mode, AddedTo(mode, t, self, other), n)
  {
    LessIsTotal(self, other);
  }

  lemma AddStores(mode: SymmetryMode, t: Table, n: nat, r: map<(Key, Key), int>, self: Key, other: Key, p: (Key, Key))
    requires Shape(mode, t, n) && |self| == |other| == |p.0| == |p.1| == n
    requires Stores(t, r, (self, other)) && Stores(t, r, p)
    ensures var q := Norm((self, other)); Stores(AddedTo(mode, t, self, other), if q in r then r else r[q := DEFAULT_EXTRA], p)
  {
    SamePair(p, (self, other));
    NormSwap(p);
    NormSwap((self, other));
    LessIsTotal(self, other);
  }

  /** Adding a pair adds it in either order, and changes nothing if it is there in either order. */
  lemma AddMeans(mode: SymmetryMode, t: Table, n: nat, r: map<(Key, Key), int>, self: Key, other: Key)
    requires Refines(mode, t, n, r) && |self| == |other| == n
    ensures var q := Norm((self, other)); Refines(mode, AddedTo(mode, t, self, other), n, if q in r then r else r[q := DEFAULT_EXTRA])
  {
    var q := Norm((self, other));
    var r' := if q in r then r else r[q := DEFAULT_EXTRA];
    AddShape(mode, t, n, self, other);
    RelationKeys(t, n);
    NormSwap((self, other));
    RefinesStores(mode, t, n, r, (self, other));
    forall p: (Key, Key) | |p.0| == |p.1| == n ensures Stores(AddedTo(mode, t, self, other), r', p) {
      RefinesStores(mode, t, n, r, p);
      AddStores(mode, t, n, r, self, other, p);
    }
    RelationIs(AddedTo(mode, t, self, other), n, r');
  }

  lemma UpsertShape(mode: SymmetryMode, t: Table, n: nat, row: Row)
    requires Shape(mode, t, n) && |row.a| == |row.b| == n
    ensures Shape(mode, UpsertedIn(mode, t, row), n)
  {
    LessIsTotal(row.a, row.b);
  }

  lemma UpsertStores(mode: SymmetryMode, t: Table, n: nat, r: map<(Key, Key), int>, row: Row, p: (Key, Key))
    requires Shape(mode, t, n) && |row.a| == |row.b| == |p.0| == |p.1| == n
    requires Stores(t, r, p)
    ensures Stores(UpsertedIn(mode, t, row), r[Norm(row.Pair()) := row.extra], p)
  {
    SamePair(p, row.Pair());
    NormSwap(p);
    LessIsTotal(row.a, row.b);
  }

  /** Storing a through object sets the pair's extra fields, whichever way round it is given and was stored before. */
  lemma UpsertMeans(mode: SymmetryMode, t: Table, n: nat, r: map<(Key, Key), int>, row: Row)
    requires Refines(mode, t, n, r) && |row.a| == |row.b| == n
    ensures Refines(mode, UpsertedIn(mode, t, row), n, r[Norm(row.Pair()) := row.extra])
  {
    UpsertShape(mode, t, n, row);
    RelationKeys(t, n);
    NormSwap(row.Pair());
    var r' := r[Norm(row.Pair()) := row.extra];
    forall p: (Key, Key) | |p.0| == |p.1| == n ensures Stores(UpsertedIn(mode, t, row), r', p) {
      RefinesStores(mode, t, n, r, p);
      UpsertStores(mode, t, n, r, row, p);
    }
    RelationIs(UpsertedIn(mode, t, row), n, r');
  }

  lemma RemoveShape(mode: SymmetryMode, t: Table, n: nat, self: Key, other: Key)
    requires Shape(mode, t, n)
    ensures Shape(mode, RemovedFrom(t, self, other), n)
  {}

  /** Removing a pair removes it however it is stored. */
  lemma RemoveMeans(mode: SymmetryMode, t: Table, n: nat, r: map<(Key, Key), int>, self: Key, other: Key)
    requires Refines(mode, t, n, r) && |self| == |other| == n
    ensures Refines(mode, RemovedFrom(t, self, other), n, r - {Norm((self, other))})
  {
    var t', r' := RemovedFrom(t, self, other), r - {Norm((self, other))};
    RemoveShape(mode, t, n, self, other);
    RelationKeys(t, n);
    NormSwap((self, other));
    forall p: (Key, Key) | |p.0| == |p.1| == n ensures Stores(t', r', p) {
      RefinesStores(mode, t, n, r, p);
      SamePair(p, (self, other));
    }
    RelationIs(t', n, r');
  }

  // ---------------------------------------------------------------- reading

  /** `manyRelated` where both rows are stored: the second keys of the rows whose first key is the caller's. */
  function ManyRelated(t: Table, self: Key): set<Key> { set p | p in t && p.0 == self :: p.1 }

  /** The objects related to one are those it is stored with, and being related goes both ways. */
  lemma ManyRelatedSymmetric(t: Table, n: nat, r: map<(Key, Key), int>, x: Key, y: Key)
    requires Refines(DOUBLE_ROW, t, n, r) && |x| == |y| == n
    ensures y in ManyRelated(t, x) <==> x in ManyRelated(t, y)
    ensures y in ManyRelated(t, x) <==> Norm((x, y)) in r
  {
    RefinesStores(DOUBLE_ROW, t, n, r, (x, y));
    assert y in ManyRelated(t, x) <==> (x, y) in t;
    assert x in ManyRelated(t, y) <==> (y, x) in t;
  }

  // ---------------------------------------------------------------- the stored table

  class ManyToMany {
    const mode: SymmetryMode
    const fields: seq<ThroughField>
    const columns: nat
    var table: Table
    /** The relation on unordered pairs that the table stands for. */
    ghost var relation: map<(Key, Key), int>

    ghost function Arity(): nat { |Columns(fields, A)| }

    ghost predicate Valid() reads this {
      && Aligned(fields) && (forall i :: 0 <= i < |fields| ==> fields[i].column < columns)
      && Refines(mode, table, Arity(), relation)
    }

    constructor (mode: SymmetryMode, fields: seq<ThroughField>, columns: nat)
      requires Aligned(fields) && forall i :: 0 <= i < |fields| ==> fields[i].column < columns
      ensures Valid() && relation == map[] && this.mode == mode && this.fields == fields && this.columns == columns
    {
      this.mode, this.fields, this.columns, table, relation := mode, fields, columns, map[], map[];
    }

    method Insert(r: Row, update: bool) returns (count: nat)
      modifies this`table
      ensures table == if update then Upserted(old(table), r) else Inserted(old(table), r)
      ensures count == if update || r.Pair() !in old(table) then 1 else 0
    {
      if r.Pair() in table && !update { return 0; }
      table := table[r.Pair() := r.extra];
      return 1;
    }

    /** Both orders and repeated calls come to the same; the count says how many rows are new. */
    method AddRelation(self: seq<int>, other: seq<int>) returns (count: nat)
      requires Valid() && |self| == |other| == columns
      modifies this
      ensures Valid()
      ensures var q := Norm((KeyOf(fields, A, self), KeyOf(fields, A, other)));
        && relation == (if q in old(relation) then old(relation) else old(relation)[q := DEFAULT_EXTRA])
        && count == (if q in old(relation) then 0 else if mode.DOUBLE_ROW? && q.0 != q.1 then 2 else 1)
    {
      var x, y := KeyOf(fields, A, self), KeyOf(fields, A, other);
      AddMeans(mode, table, Arity(), relation, x, y);
      RefinesStores(mode, table, Arity(), relation, (x, y));
      LessIsTotal(x, y);
      ghost var q := Norm((x, y));
      if mode.SINGLE_ROW? && ((x, y) in table || (y, x) in table) { return 0; }
      if mode.DOUBLE_ROW? {
        var first := Insert(Row(x, y, DEFAULT_EXTRA), false);
        var second := Insert(Row(y, x, DEFAULT_EXTRA), false);
        count := first + second;
      } else {
        var smaller := IsSelfSmallerThan(fields, self, other);
        count := Insert(if smaller then Row(x, y, DEFAULT_EXTRA) else Row(y, x, DEFAULT_EXTRA), false);
      }
      relation := if q in relation then relation else relation[q := DEFAULT_EXTRA];
    }

    method UpsertRelationThrough(r: Row)
      requires Valid() && |r.a| == |r.b| == Arity()
      modifies this
      ensures Valid() && relation == old(relation)[Norm(r.Pair()) := r.extra]
    {
      UpsertMeans(mode, table, Arity(), relation, r);
      UpsertRows(r);
      relation := relation[Norm(r.Pair()) := r.extra];
    }

    /** The rows a through object comes to in the relation's mode. */
    method UpsertRows(r: Row)
      requires |r.a| == |r.b|
      modifies this`table
      ensures table == UpsertedIn(mode, old(table), r)
    {
      var mirror := r.Mirror();
      match mode {
        case DB_SINGLE_ROW =>
          var correctOrder := InOrder(r);
          var n := Insert(if correctOrder then r else mirror, true);
        case SINGLE_ROW =>
          var n := Insert(if mirror.Pair() in table then mirror else r, true);
        case DOUBLE_ROW =>
          var n1 := Insert(r, true);
          var n2 := Insert(mirror, true);
      }
    }

    method RemoveRelation(self: seq<int>, other: seq<int>) returns (count: nat)
      requires Valid() && |self| == |other| == columns
      modifies this
      ensures Valid()
      ensures var q := Norm((KeyOf(fields, A, self), KeyOf(fields, A, other)));
        && relation == old(relation) - {q}
        && count == (if q !in old(relation) then 0 else if mode.DOUBLE_ROW? && q.0 != q.1 then 2 else 1)
    {
      var x, y := KeyOf(fields, A, self), KeyOf(fields, A, other);
      RemoveMeans(mode, table, Arity(), relation, x, y);
      RefinesStores(mode, table, Arity(), relation, (x, y));
      LessIsTotal(x, y);
      count := (if (x, y) in table then 1 else 0) + (if (y, x) in table && x != y then 1 else 0);
      table := table - {(x, y), (y, x)};
      relation := relation - {Norm((x, y))};
    }
  }
}
