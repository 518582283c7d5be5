/**
 * Who owns each SQLite connection: the pool, a query, a transaction behind a `ScopedTransaction`, or a rollback
 * job in the thread pool.
 */
module Connections {
  import opened Pools = AsyncPool

  type Scope = nat
  type Conn = Item

  /** What a connection that is out of the pool is used for; `Lost` stands for nothing ever again. */
  datatype Use = Query | Transaction(scope: Scope) | RollbackQueued | Lost

  datatype Tx = Tx(conn: Conn, ended: bool)

  datatype State = State(
    pool: Pool<Use>,
    /** The `ScopedTransaction` objects that have not been moved from, with the transaction each owns. */
    scopes: map<Scope, Tx>,
    /** Rollback jobs queued in the thread pool or running. */
    rollbacks: multiset<Conn>,
    /** Connections on which SQLite has a transaction open. */
    open: set<Conn>)

  datatype Step =
    | StartQuery(h: Handle)
    | TakeForQuery(h: Handle)
    | EndQuery(c: Conn)
    | Create(h: Handle, s: Scope)
    | TakeForTransaction(h: Handle, s: Scope)
    | Begin(s: Scope, ok: bool)
    | Commit(s: Scope, ok: bool, closes: bool)
    | Rollback(s: Scope, ok: bool, closes: bool)
    | MoveConstruct(source: Scope, to: Scope)
    | Destroy(s: Scope, room: bool)
    | RunRollback(c: Conn, rolledBack: bool)
    | Abandon(s: Scope, room: bool)
    | MoveAssign(source: Scope, to: Scope, room: bool)

  predicate Enabled(st: State, step: Step) {
    match step
    case StartQuery(h) => Idle(st.pool, h)
    case TakeForQuery(h) => h in st.pool.handed
    case EndQuery(c) => c in st.pool.held && st.pool.held[c] == Query
    case Create(h, s) => Idle(st.pool, h) && s !in st.scopes
    case TakeForTransaction(h, s) => h in st.pool.handed && s !in st.scopes
    case Begin(s, ok) => s in st.scopes && !st.scopes[s].ended && (ok ==> st.scopes[s].conn !in st.open)
    case Commit(s, ok, _) => s in st.scopes && (ok ==> st.scopes[s].conn in st.open)
    case Rollback(s, ok, _) => s in st.scopes && (ok ==> st.scopes[s].conn in st.open)
    case MoveConstruct(source, to) => source in st.scopes && to !in st.scopes
    case Destroy(s, _) => s in st.scopes
    case RunRollback(c, _) => c in st.rollbacks
    case Abandon(s, _) => s in st.scopes
    case MoveAssign(source, _, _) => source in st.scopes
  }

  /** `commit` and `rollback`: an ended transaction is left alone; a failure can close it in SQLite but does not end it. */
  function Finishes(st: State, s: Scope, ok: bool, closes: bool): State
    requires s in st.scopes
  {
    var tx := st.scopes[s];
    if tx.ended then st
    else if ok then st.(open := st.open - {tx.conn}, scopes := st.scopes[s := tx.(ended := true)])
    else if closes then st.(open := st.open - {tx.conn})
    else st
  }

  /** `abandon` of a transaction that has not ended: a rollback job, unless the thread pool's queue is full. */
  function Abandons(st: State, c: Conn, room: bool): State {
    if room then st.(rollbacks := st.rollbacks + multiset{c}, pool := Reassigns(st.pool, c, RollbackQueued))
    else st.(pool := Reassigns(st.pool, c, Lost))
  }

  /**
   * `abandon` called by the scope's user. The transaction counts as ended whether or not the job was accepted, and the
   * scope goes on to own the connection.
   */
  function AbandonsKeepingScope(st: State, s: Scope, room: bool): State
    requires s in st.scopes
  {
    var tx := st.scopes[s];
    if tx.ended then st
    else (if room then Abandons(st, tx.conn, true) else st).(scopes := st.scopes[s := tx.(ended := true)])
  }

  /** `~ScopedTransaction`: an ended transaction's connection goes back, otherwise the transaction is abandoned. */
  function Destroys(st: State, s: Scope, room: bool): State
    requires s in st.scopes
  {
    var tx := st.scopes[s];
    var rest := st.(scopes := st.scopes - {s});
    if tx.ended then rest.(pool := Releases(st.pool, tx.conn)) else Abandons(rest, tx.conn, room)
  }

  /** The old transaction of the target is destroyed without its connection going back if it had ended. */
  function MoveAssigns(st: State, source: Scope, to: Scope, room: bool): State
    requires source in st.scopes
  {
    if source == to then st
    else
      var tx := st.scopes[source];
      var cleared :=
        if to !in st.scopes then st
        else if st.scopes[to].ended then st.(pool := Reassigns(st.pool, st.scopes[to].conn, Lost))
        else Abandons(st, st.scopes[to].conn, room);
      cleared.(scopes := (st.scopes - {source})[to := tx], pool := Reassigns(cleared.pool, tx.conn, Transaction(to)))
  }

  function Next(st: State, step: Step): State
    requires Enabled(st, step)
  {
    match step
    case StartQuery(h) => st.(pool := Acquires(st.pool, h, Query))
    case TakeForQuery(h) => st.(pool := Takes(st.pool, h, Query))
    case EndQuery(c) => st.(pool := Releases(st.pool, c))
    case Create(h, s) =>
      var a := st.pool.available;
      var t := st.(pool := Acquires(st.pool, h, Transaction(s)));
      if a == [] then t else t.(scopes := st.scopes[s := Tx(a[|a| - 1], false)])
    case TakeForTransaction(h, s) =>
      st.(pool := Takes(st.pool, h, Transaction(s)), scopes := st.scopes[s := Tx(st.pool.handed[h], false)])
    case Begin(s, ok) => if ok then st.(open := st.open + {st.scopes[s].conn}) else st
    case Commit(s, ok, closes) => Finishes(st, s, ok, closes)
    case Rollback(s, ok, closes) => Finishes(st, s, ok, closes)
    case MoveConstruct(source, to) =>
      st.(scopes := (st.scopes - {source})[to := st.scopes[source]], pool := Reassigns(st.pool, st.scopes[source].conn, Transaction(to)))
    case Destroy(s, room) => Destroys(st, s, room)
    case RunRollback(c, rolledBack) =>
      st.(rollbacks := st.rollbacks - multiset{c}, open := if rolledBack then st.open - {c} else st.open, pool := Releases(st.pool, c))
    case Abandon(s, room) => AbandonsKeepingScope(st, s, room)
    case MoveAssign(source, to, room) => MoveAssigns(st, source, to, room)
  }

  // ---------------------------------------------------------------- ownership

  ghost predicate PoolSound(p: Pool<Use>, conns: set<Conn>) { Conserved(p, conns) && Queues(p) }

  /** A transaction's connection is held for it and for nothing else. */
  predicate ScopesOwn(held: map<Conn, Use>, scopes: map<Scope, Tx>) {
    && (forall s <- scopes :: scopes[s].conn in held && held[scopes[s].conn] == Transaction(s))
    && (forall c <- held :: held[c].Transaction? ==> held[c].scope in scopes && scopes[held[c].scope].conn == c)
  }

  ghost predicate RollbacksOwn(held: map<Conn, Use>, rollbacks: multiset<Conn>) {
    forall c :: rollbacks[c] == if c in held && held[c] == RollbackQueued then 1 else 0
  }

  predicate NoneLost(held: map<Conn, Use>) { forall c <- held :: held[c] != Lost }

  /** Only a transaction that goes on, or a queued rollback, has SQLite's transaction open. */
  predicate OpenOwned(held: map<Conn, Use>, scopes: map<Scope, Tx>, open: set<Conn>) {
    forall c <- open :: c in held && MayBeOpen(held[c], scopes)
  }

  predicate MayBeOpen(u: Use, scopes: map<Scope, Tx>) {
    u == RollbackQueued || (u.Transaction? && u.scope in scopes && !scopes[u.scope].ended)
  }

  ghost predicate Owned(held: map<Conn, Use>, st: State) {
    && ScopesOwn(held, st.scopes)
    && RollbacksOwn(held, st.rollbacks)
    && NoneLost(held)
    && OpenOwned(held, st.scopes, st.open)
  }

  ghost predicate Inv(st: State, conns: set<Conn>) { PoolSound(st.pool, conns) && Owned(st.pool.held, st) }

  /**
   * What keeps ownership intact, step by step. A transaction destroyed before its end needs room in the thread pool's
   * queue; an explicit `abandon` of one that goes on must find no room, and nothing open; an assignment must not be over a
   * transaction that has ended; a rollback job has to succeed where a transaction is open.
   */
  predicate Disciplined(st: State, step: Step)
    requires Enabled(st, step)
  {
    match step
    case Destroy(s, room) => st.scopes[s].ended || room
    case Abandon(s, room) => st.scopes[s].ended || (!room && st.scopes[s].conn !in st.open)
    case MoveAssign(source, to, room) => source == to || to !in st.scopes || (!st.scopes[to].ended && room)
    case RunRollback(c, rolledBack) => rolledBack || c !in st.open
    case _ => true
  }

  lemma HeldOnce(p: Pool<Use>, conns: set<Conn>, c: Conn)
    requires Conserved(p, conns) && c in p.held
    ensures c in conns && c !in p.available && forall h <- p.handed :: p.handed[h] != c
  {
    assert Copies(p, c) == 1;
    assert HandedOut(p.handed, c) == {};
    assert forall h <- p.handed :: p.handed[h] == c ==> h in HandedOut(p.handed, c);
    assert multiset(p.available)[c] == 0;
  }

  lemma FreeOnce(p: Pool<Use>, conns: set<Conn>, c: Conn)
    requires Conserved(p, conns) && (c in p.available || exists h <- p.handed :: p.handed[h] == c)
    ensures c !in p.held
  {
    if c in p.held { HeldOnce(p, conns, c); }
  }

  lemma ReassignConserves(p: Pool<Use>, conns: set<Conn>, c: Conn, u: Use)
    requires PoolSound(p, conns) && c in p.held
    ensures PoolSound(Reassigns(p, c, u), conns)
  {
    forall item ensures Copies(Reassigns(p, c, u), item) == if item in conns then 1 else 0 {
      assert Copies(Reassigns(p, c, u), item) == Copies(p, item);
    }
  }

  lemma ReleaseSound(p: Pool<Use>, conns: set<Conn>, c: Conn)
    requires PoolSound(p, conns) && c in p.held
    ensures PoolSound(Releases(p, c), conns) && Releases(p, c).held == p.held - {c}
  {
    ReleasesConserves(p, c, conns);
    QueuesKept(p, 0, c, Query);
  }

  lemma TakeSound(p: Pool<Use>, conns: set<Conn>, h: Handle, u: Use)
    requires PoolSound(p, conns) && h in p.handed
    ensures PoolSound(Takes(p, h, u), conns) && p.handed[h] !in p.held && Takes(p, h, u).held == p.held[p.handed[h] := u]
  {
    TakesConserves(p, h, u, conns);
    QueuesKept(p, h, 0, u);
    FreeOnce(p, conns, p.handed[h]);
  }

  lemma AcquireSound(p: Pool<Use>, conns: set<Conn>, h: Handle, u: Use)
    requires PoolSound(p, conns) && Idle(p, h)
    ensures PoolSound(Acquires(p, h, u), conns)
    ensures p.available == [] ==> Acquires(p, h, u).held == p.held
    ensures p.available != [] ==>
      var c := p.available[|p.available| - 1]; c !in p.held && Acquires(p, h, u).held == p.held[c := u]
  {
    AcquiresConserves(p, h, u, conns);
    QueuesKept(p, h, 0, u);
    if p.available != [] { FreeOnce(p, conns, p.available[|p.available| - 1]); }
  }

  /** Whatever is done, no connection is both free and out, or free twice, at once. */
  lemma StepKeepsPool(st: State, step: Step, conns: set<Conn>)
    requires Inv(st, conns) && Enabled(st, step)
    ensures PoolSound(Next(st, step).pool, conns)
  {
    var p := st.pool;
    match step
    case StartQuery(h) => AcquireSound(p, conns, h, Query);
    case TakeForQuery(h) => TakeSound(p, conns, h, Query);
    case EndQuery(c) => ReleaseSound(p, conns, c);
    case Create(h, s) => AcquireSound(p, conns, h, Transaction(s));
    case TakeForTransaction(h, s) => TakeSound(p, conns, h, Transaction(s));
    case Begin(_, _) =>
    case Commit(_, _, _) =>
    case Rollback(_, _, _) =>
    case MoveConstruct(source, to) => ReassignConserves(p, conns, st.scopes[source].conn, Transaction(to));
    case Destroy(s, room) =>
      ReleaseSound(p, conns, st.scopes[s].conn);
      ReassignConserves(p, conns, st.scopes[s].conn, if room then RollbackQueued else Lost);
    case RunRollback(c, _) => HasRollback(st, c); ReleaseSound(p, conns, c);
    case Abandon(s, room) => ReassignConserves(p, conns, st.scopes[s].conn, RollbackQueued);
    case MoveAssign(source, to, room) => MoveAssignPool(st, source, to, room, conns);
  }

  lemma HasRollback(st: State, c: Conn)
    requires RollbacksOwn(st.pool.held, st.rollbacks) && c in st.rollbacks
    ensures c in st.pool.held && st.pool.held[c] == RollbackQueued && st.rollbacks[c] == 1
  {}

  /** What becomes of the connection whose transaction the assignment overwrites. */
  function Overwritten(tx: Tx, room: bool): Use { if !tx.ended && room then RollbackQueued else Lost }

  lemma MoveAssignPool(st: State, source: Scope, to: Scope, room: bool, conns: set<Conn>)
    requires PoolSound(st.pool, conns) && ScopesOwn(st.pool.held, st.scopes) && source in st.scopes
    ensures var t := MoveAssigns(st, source, to, room);
      && PoolSound(t.pool, conns)
      && (source != to && to in st.scopes ==>
            t.pool.held == st.pool.held[st.scopes[to].conn := Overwritten(st.scopes[to], room)][st.scopes[source].conn := Transaction(to)])
      && (source != to && to !in st.scopes ==> t.pool.held == st.pool.held[st.scopes[source].conn := Transaction(to)])
  {
    var c := st.scopes[source].conn;
    if source != to {
      if to in st.scopes {
        var d, u := st.scopes[to].conn, Overwritten(st.scopes[to], room);
        ReassignConserves(st.pool, conns, d, u);
        ReassignConserves(Reassigns(st.pool, d, u), conns, c, Transaction(to));
      } else {
        ReassignConserves(st.pool, conns, c, Transaction(to));
      }
    }
  }

  /** In a state with its ownership intact, every step keeps it so if and only if it is a disciplined one. */
  lemma StepKeepsOwnership(st: State, step: Step, conns: set<Conn>)
    requires Inv(st, conns) && Enabled(st, step)
    ensures Inv(Next(st, step), conns) <==> Disciplined(st, step)
  {
    StepKeepsPool(st, step, conns);
    match step
    case StartQuery(h) =>
      AcquireSound(st.pool, conns, h, Query);
      if st.pool.available != [] { EntersQuery(st, st.pool.available[|st.pool.available| - 1]); }
    case TakeForQuery(h) =>
      TakeSound(st.pool, conns, h, Query);
      EntersQuery(st, st.pool.handed[h]);
    case EndQuery(c) =>
      ReleaseSound(st.pool, conns, c);
      LeavesQuery(st, c);
    case Create(h, s) =>
      AcquireSound(st.pool, conns, h, Transaction(s));
      if st.pool.available != [] { OpensScope(st, st.pool.available[|st.pool.available| - 1], s); }
    case TakeForTransaction(h, s) =>
      TakeSound(st.pool, conns, h, Transaction(s));
      OpensScope(st, st.pool.handed[h], s);
    case Destroy(s, room) =>
      ReleaseSound(st.pool, conns, st.scopes[s].conn);
      DestroyOwns(st, s, room);
    case RunRollback(c, rolledBack) =>
      HasRollback(st, c);
      ReleaseSound(st.pool, conns, c);
      RunRollbackOwns(st, c, rolledBack);
    case _ => PoolUntouchedOwns(st, step, conns);
  }

  lemma EntersQuery(st: State, c: Conn)
    requires Owned(st.pool.held, st) && c !in st.pool.held
    ensures Owned(st.pool.held[c := Query], st)
  {}

  lemma LeavesQuery(st: State, c: Conn)
    requires Owned(st.pool.held, st) && c in st.pool.held && st.pool.held[c] == Query
    ensures Owned(st.pool.held - {c}, st)
  {}

  lemma OpensScope(st: State, c: Conn, s: Scope)
    requires Owned(st.pool.held, st) && c !in st.pool.held && s !in st.scopes
    ensures Owned(st.pool.held[c := Transaction(s)], st.(scopes := st.scopes[s := Tx(c, false)]))
  {}

  /** The steps that neither take a connection from the pool nor give one back. */
  lemma PoolUntouchedOwns(st: State, step: Step, conns: set<Conn>)
    requires Inv(st, conns) && Enabled(st, step)
    requires step.Begin? || step.Commit? || step.Rollback? || step.MoveConstruct? || step.Abandon? || step.MoveAssign?
    ensures Owned(Next(st, step).pool.held, Next(st, step)) <==> Disciplined(st, step)
  {
    match step
    case Begin(s, ok) => BeginOwns(st, s, ok);
    case Commit(s, ok, closes) => FinishOwns(st, s, ok, closes);
    case Rollback(s, ok, closes) => FinishOwns(st, s, ok, closes);
    case MoveConstruct(source, to) => MoveOwns(st.pool.held, st, source, to);
    case Abandon(s, room) => AbandonOwns(st, s, room);
    case MoveAssign(source, to, room) =>
      MoveAssignPool(st, source, to, room, conns);
      MoveAssignOwns(st, source, to, room);
  }

  lemma BeginOwns(st: State, s: Scope, ok: bool)
    requires Owned(st.pool.held, st) && Enabled(st, Begin(s, ok))
    ensures Owned(st.pool.held, Next(st, Begin(s, ok)))
  {}

  /** A transaction changes its owner. */
  lemma MoveOwns(held: map<Conn, Use>, st: State, source: Scope, to: Scope)
    requires Owned(held, st) && source in st.scopes && to !in st.scopes
    ensures Owned(held[st.scopes[source].conn := Transaction(to)], st.(scopes := (st.scopes - {source})[to := st.scopes[source]]))
  {}

  /** A transaction that goes on loses its owner to a rollback job. */
  lemma OverwriteOwns(held: map<Conn, Use>, st: State, to: Scope)
    requires Owned(held, st) && to in st.scopes && !st.scopes[to].ended
    ensures var c := st.scopes[to].conn;
      Owned(held[c := RollbackQueued], st.(scopes := st.scopes - {to}, rollbacks := st.rollbacks + multiset{c}))
  {}

  lemma FinishOwns(st: State, s: Scope, ok: bool, closes: bool)
    requires Owned(st.pool.held, st) && s in st.scopes
    ensures Owned(Finishes(st, s, ok, closes).pool.held, Finishes(st, s, ok, closes))
  {}

  lemma DestroyOwns(st: State, s: Scope, room: bool)
    requires Owned(st.pool.held, st) && s in st.scopes
    ensures var t := Destroys(st, s, room);
      var held := if st.scopes[s].ended then st.pool.held - {st.scopes[s].conn} else t.pool.held;
      Owned(held, t) <==> st.scopes[s].ended || room
  {
    if !st.scopes[s].ended && !room { assert Destroys(st, s, room).pool.held[st.scopes[s].conn] == Lost; }
  }

  lemma RunRollbackOwns(st: State, c: Conn, rolledBack: bool)
    requires Owned(st.pool.held, st) && c in st.rollbacks
    ensures Owned(st.pool.held - {c}, Next(st, RunRollback(c, rolledBack))) <==> rolledBack || c !in st.open
  {
    HasRollback(st, c);
  }

  lemma AbandonOwns(st: State, s: Scope, room: bool)
    requires Owned(st.pool.held, st) && s in st.scopes
    ensures var t := AbandonsKeepingScope(st, s, room);
      Owned(t.pool.held, t) <==> st.scopes[s].ended || (!room && st.scopes[s].conn !in st.open)
  {
    if !st.scopes[s].ended {
      if room { AbandonTwoOwners(st, s); } else { AbandonRefused(st, s); }
    }
  }

  lemma AbandonTwoOwners(st: State, s: Scope)
    requires Owned(st.pool.held, st) && s in st.scopes && !st.scopes[s].ended
    ensures var t := AbandonsKeepingScope(st, s, true); !Owned(t.pool.held, t)
  {
    var t := AbandonsKeepingScope(st, s, true);
    assert s in t.scopes && t.pool.held[t.scopes[s].conn] != Transaction(s);
  }

  lemma AbandonRefused(st: State, s: Scope)
    requires Owned(st.pool.held, st) && s in st.scopes && !st.scopes[s].ended
    ensures var t := AbandonsKeepingScope(st, s, false); Owned(t.pool.held, t) <==> st.scopes[s].conn !in st.open
  {
    var t, c := AbandonsKeepingScope(st, s, false), st.scopes[s].conn;
    assert t.pool.held[c] == Transaction(s) && t.scopes[s].ended;
  }

  /** After an explicit abandon that was accepted, the job and the scope each give the connection back. */
  lemma AbandonReleasesTwice(st: State, s: Scope, rolledBack: bool, room: bool, conns: set<Conn>)
    requires Inv(st, conns) && s in st.scopes && !st.scopes[s].ended
    ensures var c := st.scopes[s].conn;
      var queued := Next(st, Abandon(s, true));
      && Enabled(queued, RunRollback(c, rolledBack))
      && var released := Next(queued, RunRollback(c, rolledBack));
      && Enabled(released, Destroy(s, room))
      && Copies(Next(released, Destroy(s, room)).pool, c) == 2
  {
    var c := st.scopes[s].conn;
    var p := Reassigns(st.pool, c, RollbackQueued);
    HeldOnce(st.pool, conns, c);
    ReassignConserves(st.pool, conns, c, RollbackQueued);
    ReleaseSound(p, conns, c);
    ReleaseOfAnItemNotHeld(Releases(p, c), c, conns);
  }

  /** After one that was refused, with nothing open, the scope gives the connection back once. */
  lemma RefusedAbandonReleasesOnce(st: State, s: Scope, room: bool, conns: set<Conn>)
    requires Inv(st, conns) && s in st.scopes && !st.scopes[s].ended && st.scopes[s].conn !in st.open
    ensures Inv(Next(Next(st, Abandon(s, false)), Destroy(s, room)), conns)
  {
    StepKeepsOwnership(st, Abandon(s, false), conns);
    StepKeepsOwnership(Next(st, Abandon(s, false)), Destroy(s, room), conns);
  }

  lemma MoveAssignOwns(st: State, source: Scope, to: Scope, room: bool)
    requires Owned(st.pool.held, st) && source in st.scopes
    ensures var t := MoveAssigns(st, source, to, room);
      Owned(t.pool.held, t) <==> source == to || to !in st.scopes || (!st.scopes[to].ended && room)
  {
    var t := MoveAssigns(st, source, to, room);
    if source == to { return; }
    var c := st.scopes[source].conn;
    if to !in st.scopes {
      MoveOwns(st.pool.held, st, source, to);
      return;
    }
    var d, u := st.scopes[to].conn, Overwritten(st.scopes[to], room);
    assert st.pool.held[c] == Transaction(source) && st.pool.held[d] == Transaction(to);
    assert t.pool.held[d] == u;
    if u == RollbackQueued {
      OverwriteOwns(st.pool.held, st, to);
      var mid := st.(scopes := st.scopes - {to}, rollbacks := st.rollbacks + multiset{d});
      MoveOwns(st.pool.held[d := u], mid, source, to);
      assert (mid.scopes - {source})[to := mid.scopes[source]] == t.scopes;
    }
  }

  // ---------------------------------------------------------------- runs

  function Initial(conns: seq<Conn>): State { State(Pools.Initial(conns), map[], multiset{}, {}) }

  ghost predicate Trace(conns: seq<Conn>, states: seq<State>, steps: seq<Step>) {
    && |states| == |steps| + 1 && states[0] == Initial(conns)
    && forall i :: 0 <= i < |steps| ==> Enabled(states[i], steps[i]) && states[i + 1] == Next(states[i], steps[i])
  }

  ghost predicate AllDisciplined(states: seq<State>, steps: seq<Step>)
    requires |states| == |steps| + 1 && forall i :: 0 <= i < |steps| ==> Enabled(states[i], steps[i])
  {
    forall i :: 0 <= i < |steps| ==> Disciplined(states[i], steps[i])
  }

  /**
   * Over every disciplined run: a connection is free, handed to a waiter, running a query, behind one live transaction
   * or in one rollback job, in exactly one of these; and a connection with an open transaction is in neither of the first three.
   */
  lemma {:induction false} EveryRun(conns: seq<Conn>, states: seq<State>, steps: seq<Step>)
    requires Distinct(conns) && Trace(conns, states, steps) && AllDisciplined(states, steps)
    ensures Inv(states[|steps|], set c | c in conns)
  {
    var all := set c | c in conns;
    if steps == [] {
      Pools.EveryRun<Use>(conns, [Pools.Initial(conns)], []);
    } else {
      var n := |steps| - 1;
      assert forall i :: 0 <= i < n ==> steps[..n][i] == steps[i] && states[..n + 1][i] == states[i];
      EveryRun(conns, states[..n + 1], steps[..n]);
      StepKeepsOwnership(states[n], steps[n], all);
    }
  }

  /** Where a connection is. */
  predicate Free(st: State, c: Conn) { c in st.pool.available }
  predicate Handed(st: State, c: Conn) { exists h <- st.pool.handed :: st.pool.handed[h] == c }
  predicate Querying(st: State, c: Conn) { c in st.pool.held && st.pool.held[c] == Query }
  predicate InTransaction(st: State, c: Conn) { exists s <- st.scopes :: st.scopes[s].conn == c }
  predicate RollingBack(st: State, c: Conn) { c in st.rollbacks }

  function Count(b: bool): nat { if b then 1 else 0 }

  lemma ExactlyOneOwner(st: State, conns: set<Conn>, c: Conn)
    requires Inv(st, conns) && c in conns
    ensures Count(Free(st, c)) + Count(Handed(st, c)) + Count(Querying(st, c)) + Count(InTransaction(st, c)) + Count(RollingBack(st, c)) == 1
    ensures c in st.open ==> !Free(st, c) && !Handed(st, c) && !Querying(st, c)
    ensures forall s1, s2 :: s1 in st.scopes && s2 in st.scopes && st.scopes[s1].conn == c && st.scopes[s2].conn == c ==> s1 == s2
  {
    var p := st.pool;
    assert Copies(p, c) == 1;
    assert InTransaction(st, c) <==> c in p.held && p.held[c].Transaction?;
    assert RollingBack(st, c) <==> c in p.held && p.held[c] == RollbackQueued;
    assert Handed(st, c) <==> HandedOut(p.handed, c) != {} by {
      if h :| h in p.handed && p.handed[h] == c { assert h in HandedOut(p.handed, c); }
      if h :| h in HandedOut(p.handed, c) { assert p.handed[h] == c; }
    }
    assert Free(st, c) <==> multiset(p.available)[c] > 0;
  }
}
