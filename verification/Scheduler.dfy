/**
 * The coroutine scheduler. Coroutines are opaque: the model keeps, beside the executor's own containers, where each
 * suspended coroutine is, and shows that the containers and that bookkeeping never disagree.
 */
module Scheduler {
  type Handle = nat

  datatype SuspendedTask = SuspendedTask(handle: Handle, waitingForWrite: bool, suspensionSeq: int)
  datatype TaskDeadline = TaskDeadline(deadline: int, fd: int, suspensionSeq: int)
  datatype ReadyTask = ReadyTask(task: Handle, timedOut: bool)
  datatype FileOp = READ | WRITE
  datatype PendingFileOpPrep = PendingFileOpPrep(op: FileOp, fd: int, userData: nat, handle: Handle, resultPtr: nat)
  datatype PendingFileOp = PendingFileOp(handle: Handle, resultPtr: nat)
  datatype Completion = Completion(userData: nat, result: int)
  datatype Event = Event(fd: int, error: bool, readable: bool, writable: bool)

  const TWO31 := 0x8000_0000
  const TWO32 := 0x1_0000_0000

  /** The conversion of a 64-bit number to `int`. */
  function Int32(n: int): (r: int)
    ensures -TWO31 <= r < TWO31
    ensures -TWO31 <= n < TWO31 ==> r == n
  {
    (n + TWO31) % TWO32 - TWO31
  }

  /** The first `TWO32` sequence numbers can be told apart after conversion. */
  function Raw(seqNo: int): nat { seqNo % TWO32 }

  lemma RawInt32(n: nat)
    requires n < TWO32
    ensures Raw(Int32(n)) == n
  {}

  // ---------------------------------------------------------------- where a suspended coroutine is

  datatype Cause = Spawned | Woken | TimedOut | Completed(userData: nat) | Returned

  datatype Place = Waiting(key: int) | Prepared(userData: nat) | InFlight(userData: nat) | Posted | Runnable(cause: Cause)
  {
    /** The awaiting coroutine's frame holds the cell the operation's result goes to. */
    predicate OwnsCell() { Prepared? || InFlight? || (Runnable? && cause.Completed?) }
  }

  type Places = map<Handle, Place>

  function Tasks(ready: seq<ReadyTask>): (r: seq<Handle>)
    ensures |r| == |ready| && forall i :: 0 <= i < |r| ==> r[i] == ready[i].task
  {
    seq(|ready|, i requires 0 <= i < |ready| => ready[i].task)
  }

  predicate Distinct(hs: seq<Handle>) { forall i, j :: 0 <= i < j < |hs| ==> hs[i] != hs[j] }

  ghost predicate SuspendedAgrees(suspended: map<int, SuspendedTask>, places: Places) {
    && (forall k <- suspended :: suspended[k].handle in places && places[suspended[k].handle] == Waiting(k))
    && (forall h <- places :: places[h].Waiting? ==> places[h].key in suspended && suspended[places[h].key].handle == h)
  }

  ghost predicate ReadyAgrees(ready: seq<ReadyTask>, places: Places) {
    && Distinct(Tasks(ready))
    && (forall i :: 0 <= i < |ready| ==> ready[i].task in places && places[ready[i].task].Runnable?
                                         && (ready[i].timedOut <==> places[ready[i].task].cause.TimedOut?))
    && (forall h <- places :: places[h].Runnable? ==> h in Tasks(ready))
  }

  ghost predicate PoolAgrees(pool: seq<Handle>, places: Places) {
    && Distinct(pool)
    && (forall h <- pool :: h in places && places[h].Posted?)
    && (forall h <- places :: places[h].Posted? ==> h in pool)
  }

  ghost predicate OpsAgree(preps: seq<PendingFileOpPrep>, ops: map<nat, PendingFileOp>, next: nat, places: Places, cell: map<Handle, nat>) {
    && (forall i :: 0 <= i < |preps| ==> PrepAgrees(preps[i], ops, next, places, cell))
    && (forall i, j :: 0 <= i < j < |preps| ==> preps[i].userData < preps[j].userData)
    && (forall h <- places :: places[h].Prepared? ==> exists i :: 0 <= i < |preps| && preps[i].handle == h)
    && (forall u <- ops :: u < next && OpAgrees(u, ops[u], places, cell))
    && (forall h <- places :: places[h].InFlight? ==> places[h].userData in ops && ops[places[h].userData].handle == h)
  }

  ghost predicate PrepAgrees(p: PendingFileOpPrep, ops: map<nat, PendingFileOp>, next: nat, places: Places, cell: map<Handle, nat>) {
    && p.userData < next && p.userData !in ops
    && p.handle in places && places[p.handle] == Prepared(p.userData)
    && p.handle in cell && cell[p.handle] == p.resultPtr
  }

  ghost predicate OpAgrees(u: nat, op: PendingFileOp, places: Places, cell: map<Handle, nat>) {
    && op.handle in places && places[op.handle] == InFlight(u)
    && op.handle in cell && cell[op.handle] == op.resultPtr
  }

  /** An operation completes once. */
  ghost predicate ReportedAgree(preps: seq<PendingFileOpPrep>, ops: map<nat, PendingFileOp>, next: nat, reported: map<nat, int>) {
    && (forall u <- reported :: u < next && u !in ops)
    && (forall i :: 0 <= i < |preps| ==> preps[i].userData !in reported)
  }

  /** No two outstanding operations share a result cell, and a completed one's cell holds its own result. */
  ghost predicate CellsAgree(places: Places, cell: map<Handle, nat>, results: map<nat, int>, reported: map<nat, int>) {
    && (forall h <- places :: places[h].OwnsCell() ==> h in cell)
    && (forall h, g :: h in places && g in places && places[h].OwnsCell() && places[g].OwnsCell() && h != g ==> cell[h] != cell[g])
    && (forall h <- places :: places[h].Runnable? && places[h].cause.Completed? ==>
          && places[h].cause.userData in reported && cell[h] in results
          && results[cell[h]] == reported[places[h].cause.userData])
  }

  /** Every waiting coroutine's own deadline is in the heap, under its key and with its sequence number. */
  ghost predicate DeadlinesKept(suspended: map<int, SuspendedTask>, heap: multiset<TaskDeadline>, own: map<Handle, TaskDeadline>) {
    forall k <- suspended :: OwnDeadline(k, suspended[k], heap, own)
  }

  ghost predicate OwnDeadline(k: int, t: SuspendedTask, heap: multiset<TaskDeadline>, own: map<Handle, TaskDeadline>) {
    t.handle in own && own[t.handle] in heap && own[t.handle].suspensionSeq == t.suspensionSeq && Int32(own[t.handle].fd) == k
  }

  /** A coroutine is told that it timed out only if the deadline it waited with has passed. */
  ghost predicate TimeoutsAgree(places: Places, own: map<Handle, TaskDeadline>, clock: int) {
    forall h <- places :: places[h] == Runnable(TimedOut) ==> h in own && own[h].deadline <= clock
  }

  /** Each suspension has been resumed once, or its coroutine is in exactly one place, or it was dropped. */
  ghost predicate Accounted(suspensions: multiset<Handle>, resumptions: multiset<Handle>, places: Places, dropped: set<Handle>) {
    && places.Keys !! dropped
    && forall h :: suspensions[h] == resumptions[h] + (if h in places then 1 else 0) + (if h in dropped then 1 else 0)
  }

  /** Keys of events that are not descriptors are negative and have all been handed out. */
  ghost predicate KeysAgree(suspended: map<int, SuspendedTask>, syntheticEventKey: int) {
    forall k <- suspended :: k < 0 ==> k > syntheticEventKey
  }

  /** The scheduler's containers and, from `places` on, what the model knows beside them. */
  datatype State = State(
    ready: seq<ReadyTask>,
    suspended: map<int, SuspendedTask>,
    heap: multiset<TaskDeadline>,
    nextSeq: nat,
    syntheticEventKey: int,
    preps: seq<PendingFileOpPrep>,
    ops: map<nat, PendingFileOp>,
    nextUserData: nat,
    pool: seq<Handle>,
    results: map<nat, int>,
    places: Places,
    /** Coroutines the executor forgot: another wait took their key, or their descriptor was unregistered. */
    dropped: set<Handle>,
    suspensions: multiset<Handle>,
    resumptions: multiset<Handle>,
    /** The heap entry made for a coroutine's latest wait. */
    own: map<Handle, TaskDeadline>,
    /** Where the result of a coroutine's latest file operation goes. */
    cell: map<Handle, nat>,
    /** What the kernel reported for each operation. */
    reported: map<nat, int>,
    clock: int)

  ghost predicate Scheduling(s: State) {
    && SuspendedAgrees(s.suspended, s.places)
    && ReadyAgrees(s.ready, s.places)
    && PoolAgrees(s.pool, s.places)
    && DeadlinesKept(s.suspended, s.heap, s.own)
    && Accounted(s.suspensions, s.resumptions, s.places, s.dropped)
    && KeysAgree(s.suspended, s.syntheticEventKey)
  }

  ghost predicate FileOps(s: State) {
    && OpsAgree(s.preps, s.ops, s.nextUserData, s.places, s.cell)
    && ReportedAgree(s.preps, s.ops, s.nextUserData, s.reported)
    && CellsAgree(s.places, s.cell, s.results, s.reported)
  }

  ghost predicate Core(s: State) { Scheduling(s) && FileOps(s) }

  ghost predicate Inv(s: State) { Core(s) && s.syntheticEventKey <= -1 }

  /** An entry that the sweep takes for the one of the wait under `k`. */
  predicate Current(d: TaskDeadline, k: int, t: SuspendedTask) { Int32(d.fd) == k && d.suspensionSeq == t.suspensionSeq }

  /** No entry ends a wait before its own deadline, and none has. */
  ghost predicate Timely(s: State) {
    && (forall k, d :: k in s.suspended && d in s.heap && Current(d, k, s.suspended[k]) ==> EndsNoEarlier(d, s.suspended[k], s.own))
    && TimeoutsAgree(s.places, s.own, s.clock)
  }

  predicate EndsNoEarlier(d: TaskDeadline, t: SuspendedTask, own: map<Handle, TaskDeadline>) {
    t.handle in own && own[t.handle].deadline <= d.deadline
  }

  /** A coroutine that is neither somewhere in the executor nor forgotten by it. */
  predicate Running(s: State, h: Handle) { h !in s.places && h !in s.dropped }

  // ---------------------------------------------------------------- steps

  /** `suspendedTasks_[key] = …` over an occupied key, and `unregister`: the coroutine there is lost. */
  function Forgets(s: State, k: int): State
    requires k in s.suspended
  {
    var h := s.suspended[k].handle;
    s.(suspended := s.suspended - {k}, places := s.places - {h}, dropped := s.dropped + {h})
  }

  function Vacates(s: State, k: int): State { if k in s.suspended then Forgets(s, k) else s }

  /** `waitForRead`, `waitForWrite` and `waitForEvent` */
  function Waits(s: State, key: int, caller: Handle, waitingForWrite: bool, deadline: int): State {
    var v := Vacates(s, Int32(key));
    var d := TaskDeadline(deadline, key, Int32(s.nextSeq));
    v.(suspended := v.suspended[Int32(key) := SuspendedTask(caller, waitingForWrite, Int32(s.nextSeq))],
       heap := v.heap + multiset{d}, nextSeq := s.nextSeq + 1,
       places := v.places[caller := Waiting(Int32(key))], own := v.own[caller := d],
       suspensions := v.suspensions + multiset{caller})
  }

  /** What a wait does to the containers, whether or not its key is occupied. */
  lemma WaitContainers(s: State, key: int, caller: Handle, waitingForWrite: bool, deadline: int)
    ensures var t := Waits(s, key, caller, waitingForWrite, deadline);
      && t.suspended == s.suspended[Int32(key) := SuspendedTask(caller, waitingForWrite, Int32(s.nextSeq))]
      && t.heap == s.heap + multiset{TaskDeadline(deadline, key, Int32(s.nextSeq))} && t.nextSeq == s.nextSeq + 1
      && t == s.(suspended := t.suspended, heap := t.heap, nextSeq := t.nextSeq, places := t.places, own := t.own,
                 suspensions := t.suspensions, dropped := t.dropped)
  {}

  /** A waiting coroutine becomes ready: its descriptor is, its event fired, or its deadline passed. */
  function Wakes(s: State, k: int, cause: Cause): State
    requires k in s.suspended
  {
    var h := s.suspended[k].handle;
    s.(suspended := s.suspended - {k}, ready := s.ready + [ReadyTask(h, cause.TimedOut?)], places := s.places[h := Runnable(cause)])
  }

  function Submits(s: State, op: FileOp, fd: int, h: Handle, resultPtr: nat): State {
    s.(preps := s.preps + [PendingFileOpPrep(op, fd, s.nextUserData, h, resultPtr)], nextUserData := s.nextUserData + 1,
       places := s.places[h := Prepared(s.nextUserData)], cell := s.cell[h := resultPtr],
       suspensions := s.suspensions + multiset{h})
  }

  /** The first prepared operation has found room in the submission ring. */
  function Issues(s: State): State
    requires s.preps != []
  {
    var p := s.preps[0];
    s.(preps := s.preps[1..], ops := s.ops[p.userData := PendingFileOp(p.handle, p.resultPtr)],
       places := s.places[p.handle := InFlight(p.userData)])
  }

  function Completes(s: State, c: Completion): State
    requires c.userData in s.ops
  {
    var op := s.ops[c.userData];
    s.(ops := s.ops - {c.userData}, results := s.results[op.resultPtr := c.result],
       ready := s.ready + [ReadyTask(op.handle, false)], reported := s.reported[c.userData := c.result],
       places := s.places[op.handle := Runnable(Cause.Completed(c.userData))])
  }

  function Posts(s: State, h: Handle): State {
    s.(pool := s.pool + [h], places := s.places[h := Posted], suspensions := s.suspensions + multiset{h})
  }

  function Returns(s: State): State
    requires s.pool != []
  {
    s.(pool := s.pool[1..], ready := s.ready + [ReadyTask(s.pool[0], false)], places := s.places[s.pool[0] := Runnable(Returned)])
  }

  function Spawns(s: State, h: Handle): State {
    s.(ready := s.ready + [ReadyTask(h, false)], places := s.places[h := Runnable(Spawned)], suspensions := s.suspensions + multiset{h})
  }

  function Resumes(s: State): State
    requires s.ready != []
  {
    s.(ready := s.ready[1..], places := s.places - {s.ready[0].task}, resumptions := s.resumptions + multiset{s.ready[0].task})
  }

  // ---------------------------------------------------------------- one coroutine moves, the others stay

  ghost predicate Elsewhere(p: Places, q: Places, h: Handle) {
    forall g :: g != h ==> (g in p <==> g in q) && (g in p && g in q ==> p[g] == q[g])
  }

  lemma SuspendedUntouched(suspended: map<int, SuspendedTask>, p: Places, q: Places, h: Handle)
    requires SuspendedAgrees(suspended, p) && Elsewhere(p, q, h)
    requires (h in p ==> !p[h].Waiting?) && (h in q ==> !q[h].Waiting?)
    ensures SuspendedAgrees(suspended, q)
  {}

  lemma ReadyUntouched(ready: seq<ReadyTask>, p: Places, q: Places, h: Handle)
    requires ReadyAgrees(ready, p) && Elsewhere(p, q, h)
    requires (h in p ==> !p[h].Runnable?) && (h in q ==> !q[h].Runnable?)
    ensures ReadyAgrees(ready, q)
  {
    assert h !in Tasks(ready);
  }

  lemma PoolUntouched(pool: seq<Handle>, p: Places, q: Places, h: Handle)
    requires PoolAgrees(pool, p) && Elsewhere(p, q, h)
    requires (h in p ==> !p[h].Posted?) && (h in q ==> !q[h].Posted?)
    ensures PoolAgrees(pool, q)
  {}

  lemma OpsUntouched(preps: seq<PendingFileOpPrep>, ops: map<nat, PendingFileOp>, next: nat, p: Places, q: Places, cell: map<Handle, nat>, h: Handle)
    requires OpsAgree(preps, ops, next, p, cell) && Elsewhere(p, q, h)
    requires (h in p ==> !(p[h].Prepared? || p[h].InFlight?)) && (h in q ==> !(q[h].Prepared? || q[h].InFlight?))
    ensures OpsAgree(preps, ops, next, q, cell)
  {
    forall g | g in q && q[g].Prepared? ensures exists i :: 0 <= i < |preps| && preps[i].handle == g {
      assert g in p && p[g].Prepared?;
    }
  }

  lemma CellsUntouched(p: Places, q: Places, cell: map<Handle, nat>, results: map<nat, int>, reported: map<nat, int>, h: Handle)
    requires CellsAgree(p, cell, results, reported) && Elsewhere(p, q, h) && (h in q ==> !q[h].OwnsCell())
    ensures CellsAgree(q, cell, results, reported)
  {}

  /** A move of a coroutine that takes no part in a file operation, before or after. */
  lemma FileOpsUntouched(s: State, t: State, h: Handle)
    requires FileOps(s) && Elsewhere(s.places, t.places, h)
    requires (h in s.places ==> !(s.places[h].Prepared? || s.places[h].InFlight?)) && (h in t.places ==> !t.places[h].OwnsCell())
    requires t.preps == s.preps && t.ops == s.ops && t.nextUserData == s.nextUserData
    requires t.cell == s.cell && t.results == s.results && t.reported == s.reported
    ensures FileOps(t)
  {
    OpsUntouched(s.preps, s.ops, s.nextUserData, s.places, t.places, s.cell, h);
    CellsUntouched(s.places, t.places, s.cell, s.results, s.reported, h);
  }

  /** A move between places of file operations. */
  lemma SchedulingUntouched(s: State, t: State, h: Handle)
    requires Scheduling(s) && Elsewhere(s.places, t.places, h)
    requires h in s.places ==> !(s.places[h].Waiting? || s.places[h].Runnable? || s.places[h].Posted?)
    requires h in t.places && !(t.places[h].Waiting? || t.places[h].Runnable? || t.places[h].Posted?)
    requires t.suspended == s.suspended && t.ready == s.ready && t.pool == s.pool && t.heap == s.heap && t.own == s.own
    requires t.nextSeq == s.nextSeq && t.syntheticEventKey == s.syntheticEventKey
    requires Accounted(t.suspensions, t.resumptions, t.places, t.dropped)
    ensures Scheduling(t)
  {
    SuspendedUntouched(s.suspended, s.places, t.places, h);
    ReadyUntouched(s.ready, s.places, t.places, h);
    PoolUntouched(s.pool, s.places, t.places, h);
  }

  lemma BecomesRunnable(ready: seq<ReadyTask>, p: Places, h: Handle, cause: Cause)
    requires ReadyAgrees(ready, p) && (h in p ==> !p[h].Runnable?)
    ensures ReadyAgrees(ready + [ReadyTask(h, cause.TimedOut?)], p[h := Runnable(cause)])
  {
    assert Tasks(ready + [ReadyTask(h, cause.TimedOut?)]) == Tasks(ready) + [h];
    assert h !in Tasks(ready);
  }

  lemma LeavesReady(ready: seq<ReadyTask>, p: Places)
    requires ReadyAgrees(ready, p) && ready != []
    ensures ready[0].task in p && p[ready[0].task].Runnable? && ReadyAgrees(ready[1..], p - {ready[0].task})
  {
    FirstTask(ready);
    OthersListed(Tasks(ready), Tasks(ready[1..]), p);
    OthersReady(ready, p);
  }

  lemma FirstTask(ready: seq<ReadyTask>)
    requires ready != []
    ensures Tasks(ready) == [ready[0].task] + Tasks(ready[1..])
    ensures Distinct(Tasks(ready)) ==> Distinct(Tasks(ready[1..]))
  {
    var all, rest := Tasks(ready), Tasks(ready[1..]);
    assert forall i :: 0 <= i < |rest| ==> rest[i] == all[i + 1];
  }

  lemma OthersListed(all: seq<Handle>, rest: seq<Handle>, p: Places)
    requires all != [] && all == [all[0]] + rest
    requires forall h <- p :: p[h].Runnable? ==> h in all
    ensures forall h <- p - {all[0]} :: p[h].Runnable? ==> h in rest
  {}

  lemma OthersReady(ready: seq<ReadyTask>, p: Places)
    requires ready != [] && Distinct(Tasks(ready))
    requires forall i :: 0 <= i < |ready| ==> ready[i].task in p && p[ready[i].task].Runnable?
                                              && (ready[i].timedOut <==> p[ready[i].task].cause.TimedOut?)
    ensures var q := p - {ready[0].task};
      forall i :: 0 <= i < |ready[1..]| ==> ready[1..][i].task in q && q[ready[1..][i].task].Runnable?
                                            && (ready[1..][i].timedOut <==> q[ready[1..][i].task].cause.TimedOut?)
  {
    forall i | 0 <= i < |ready[1..]| ensures ready[1..][i] == ready[i + 1] && ready[i + 1].task != ready[0].task {
      assert Tasks(ready)[0] != Tasks(ready)[i + 1];
    }
  }

  lemma StopsWaiting(suspended: map<int, SuspendedTask>, p: Places, q: Places, k: int)
    requires SuspendedAgrees(suspended, p) && k in suspended
    requires Elsewhere(p, q, suspended[k].handle) && (suspended[k].handle in q ==> !q[suspended[k].handle].Waiting?)
    ensures SuspendedAgrees(suspended - {k}, q)
  {}

  lemma ForgetsKeeps(s: State, k: int)
    requires Core(s) && k in s.suspended
    ensures Core(Forgets(s, k))
  {
    var h := s.suspended[k].handle;
    assert Elsewhere(s.places, Forgets(s, k).places, h);
    ForgetsScheduling(s, k);
    FileOpsUntouched(s, Forgets(s, k), h);
  }

  lemma ForgetsScheduling(s: State, k: int)
    requires Scheduling(s) && k in s.suspended
    ensures Scheduling(Forgets(s, k))
  {
    var h := s.suspended[k].handle;
    var t := Forgets(s, k);
    assert Elsewhere(s.places, t.places, h);
    StopsWaiting(s.suspended, s.places, t.places, k);
    ReadyUntouched(s.ready, s.places, t.places, h);
    PoolUntouched(s.pool, s.places, t.places, h);
    ForgetsAccounted(s, k);
    FewerDeadlines(s, k);
  }

  lemma ForgetsAccounted(s: State, k: int)
    requires Accounted(s.suspensions, s.resumptions, s.places, s.dropped) && k in s.suspended && s.suspended[k].handle in s.places
    ensures var t := Forgets(s, k); Accounted(t.suspensions, t.resumptions, t.places, t.dropped)
  {}

  lemma FewerDeadlines(s: State, k: int)
    requires DeadlinesKept(s.suspended, s.heap, s.own)
    ensures DeadlinesKept(s.suspended - {k}, s.heap, s.own)
  {}

  lemma StartsWaiting(suspended: map<int, SuspendedTask>, p: Places, k: int, t: SuspendedTask)
    requires SuspendedAgrees(suspended, p) && k !in suspended && t.handle !in p
    ensures SuspendedAgrees(suspended[k := t], p[t.handle := Waiting(k)])
  {}

  lemma NewDeadline(suspended: map<int, SuspendedTask>, p: Places, heap: multiset<TaskDeadline>, own: map<Handle, TaskDeadline>,
                    k: int, t: SuspendedTask, d: TaskDeadline)
    requires DeadlinesKept(suspended, heap, own) && SuspendedAgrees(suspended, p)
    requires k !in suspended && t.handle !in p && d.suspensionSeq == t.suspensionSeq && Int32(d.fd) == k
    ensures DeadlinesKept(suspended[k := t], heap + multiset{d}, own[t.handle := d])
  {
    assert forall j <- suspended :: suspended[j].handle != t.handle && OwnDeadline(j, suspended[j], heap, own);
  }

  /** A new wait, on a key nobody holds any more. */
  lemma {:induction false} WaitsKeeps(s: State, key: int, caller: Handle, waitingForWrite: bool, deadline: int)
    requires Core(s) && Running(s, caller)
    requires Int32(key) < 0 ==> Int32(key) > s.syntheticEventKey
    ensures Core(Waits(s, key, caller, waitingForWrite, deadline))
  {
    var k := Int32(key);
    if k in s.suspended { ForgetsKeeps(s, k); }
    var v := Vacates(s, k);
    assert caller != (if k in s.suspended then s.suspended[k].handle else caller + 1);
    EntersWait(v, key, caller, waitingForWrite, deadline);
  }

  lemma Joins(suspensions: multiset<Handle>, resumptions: multiset<Handle>, p: Places, dropped: set<Handle>, h: Handle, place: Place)
    requires Accounted(suspensions, resumptions, p, dropped) && h !in p && h !in dropped
    ensures Accounted(suspensions + multiset{h}, resumptions, p[h := place], dropped)
  {}

  lemma EntersWait(v: State, key: int, caller: Handle, waitingForWrite: bool, deadline: int)
    requires Core(v) && Running(v, caller) && Int32(key) !in v.suspended
    requires Int32(key) < 0 ==> Int32(key) > v.syntheticEventKey
    ensures Core(Waits(v, key, caller, waitingForWrite, deadline))
  {
    EntersScheduling(v, key, caller, waitingForWrite, deadline);
    EntersFileOps(v, key, caller, waitingForWrite, deadline);
  }

  lemma EntersFileOps(v: State, key: int, caller: Handle, waitingForWrite: bool, deadline: int)
    requires FileOps(v) && caller !in v.places && Int32(key) !in v.suspended
    ensures FileOps(Waits(v, key, caller, waitingForWrite, deadline))
  {
    assert Elsewhere(v.places, Waits(v, key, caller, waitingForWrite, deadline).places, caller);
    FileOpsUntouched(v, Waits(v, key, caller, waitingForWrite, deadline), caller);
  }

  lemma EntersScheduling(v: State, key: int, caller: Handle, waitingForWrite: bool, deadline: int)
    requires Scheduling(v) && Running(v, caller) && Int32(key) !in v.suspended
    requires Int32(key) < 0 ==> Int32(key) > v.syntheticEventKey
    ensures Scheduling(Waits(v, key, caller, waitingForWrite, deadline))
  {
    var k, p := Int32(key), v.places[caller := Waiting(Int32(key))];
    var task, d := SuspendedTask(caller, waitingForWrite, Int32(v.nextSeq)), TaskDeadline(deadline, key, Int32(v.nextSeq));
    StartsWaiting(v.suspended, v.places, k, task);
    NewDeadline(v.suspended, v.places, v.heap, v.own, k, task, d);
    Joins(v.suspensions, v.resumptions, v.places, v.dropped, caller, Waiting(k));
    EntersQueues(v.ready, v.pool, v.places, caller, k);
  }

  lemma EntersQueues(ready: seq<ReadyTask>, pool: seq<Handle>, p: Places, h: Handle, k: int)
    requires ReadyAgrees(ready, p) && PoolAgrees(pool, p) && h !in p
    ensures ReadyAgrees(ready, p[h := Waiting(k)]) && PoolAgrees(pool, p[h := Waiting(k)])
  {
    assert Elsewhere(p, p[h := Waiting(k)], h);
    ReadyUntouched(ready, p, p[h := Waiting(k)], h);
    PoolUntouched(pool, p, p[h := Waiting(k)], h);
  }

  /** A waiting coroutine becomes ready, for whatever reason. */
  lemma WakesKeeps(s: State, k: int, cause: Cause)
    requires Core(s) && k in s.suspended && !cause.Completed?
    ensures Core(Wakes(s, k, cause))
  {
    var h := s.suspended[k].handle;
    assert Elsewhere(s.places, Wakes(s, k, cause).places, h);
    WakesScheduling(s, k, cause);
    FileOpsUntouched(s, Wakes(s, k, cause), h);
  }

  lemma WakesScheduling(s: State, k: int, cause: Cause)
    requires Scheduling(s) && k in s.suspended
    ensures Scheduling(Wakes(s, k, cause))
  {
    var h := s.suspended[k].handle;
    var t := Wakes(s, k, cause);
    assert Elsewhere(s.places, t.places, h);
    StopsWaiting(s.suspended, s.places, t.places, k);
    BecomesRunnable(s.ready, s.places, h, cause);
    PoolUntouched(s.pool, s.places, t.places, h);
    FewerDeadlines(s, k);
    assert t.places.Keys == s.places.Keys;
  }

  /** A result cell is free if no outstanding or undelivered operation writes to it. */
  predicate CellFree(s: State, c: nat) {
    forall h <- s.places :: s.places[h].OwnsCell() && h in s.cell ==> s.cell[h] != c
  }

  lemma OpsSubmit(preps: seq<PendingFileOpPrep>, ops: map<nat, PendingFileOp>, next: nat, p: Places, cell: map<Handle, nat>, new_: PendingFileOpPrep)
    requires OpsAgree(preps, ops, next, p, cell) && new_.handle !in p && new_.userData == next
    ensures OpsAgree(preps + [new_], ops, next + 1, p[new_.handle := Prepared(next)], cell[new_.handle := new_.resultPtr])
  {
    var q, preps', cell' := p[new_.handle := Prepared(next)], preps + [new_], cell[new_.handle := new_.resultPtr];
    assert preps'[|preps|] == new_;
    assert forall i :: 0 <= i < |preps| ==> preps'[i] == preps[i] && PrepAgrees(preps[i], ops, next, p, cell);
    forall h | h in q && q[h].Prepared? ensures exists i :: 0 <= i < |preps'| && preps'[i].handle == h {
      if h == new_.handle {
        assert preps'[|preps|].handle == h;
      } else {
        var i :| 0 <= i < |preps| && preps[i].handle == h;
        assert preps'[i].handle == h;
      }
    }
  }

  lemma SubmitsKeeps(s: State, op: FileOp, fd: int, h: Handle, resultPtr: nat)
    requires Core(s) && Running(s, h) && CellFree(s, resultPtr)
    ensures Core(Submits(s, op, fd, h, resultPtr))
  {
    var t := Submits(s, op, fd, h, resultPtr);
    assert Elsewhere(s.places, t.places, h);
    Joins(s.suspensions, s.resumptions, s.places, s.dropped, h, Prepared(s.nextUserData));
    SchedulingUntouched(s, t, h);
    SubmitsFileOps(s, op, fd, h, resultPtr);
  }

  lemma SubmitsFileOps(s: State, op: FileOp, fd: int, h: Handle, resultPtr: nat)
    requires FileOps(s) && h !in s.places && CellFree(s, resultPtr)
    ensures FileOps(Submits(s, op, fd, h, resultPtr))
  {
    CellsSubmit(s.places, s.cell, s.results, s.reported, h, s.nextUserData, resultPtr);
    OpsSubmit(s.preps, s.ops, s.nextUserData, s.places, s.cell, PendingFileOpPrep(op, fd, s.nextUserData, h, resultPtr));
  }

  lemma OpsIssue(preps: seq<PendingFileOpPrep>, ops: map<nat, PendingFileOp>, next: nat, p: Places, cell: map<Handle, nat>)
    requires OpsAgree(preps, ops, next, p, cell) && preps != []
    ensures var first := preps[0];
      OpsAgree(preps[1..], ops[first.userData := PendingFileOp(first.handle, first.resultPtr)], next, p[first.handle := InFlight(first.userData)], cell)
  {
    var first := preps[0];
    var rest, q := preps[1..], p[first.handle := InFlight(first.userData)];
    assert PrepAgrees(first, ops, next, p, cell);
    assert forall i :: 0 <= i < |rest| ==> rest[i] == preps[i + 1] && PrepAgrees(rest[i], ops, next, p, cell) && rest[i].userData != first.userData;
    forall h | h in q && q[h].Prepared? ensures exists i :: 0 <= i < |rest| && rest[i].handle == h {
      var i :| 0 <= i < |preps| && preps[i].handle == h;
      assert rest[i - 1].handle == h;
    }
  }

  lemma IssuesKeeps(s: State)
    requires Core(s) && s.preps != []
    ensures Core(Issues(s))
  {
    var h := s.preps[0].handle;
    assert PrepAgrees(s.preps[0], s.ops, s.nextUserData, s.places, s.cell);
    IssuesScheduling(s, h, s.preps[0].userData);
    IssuesFileOps(s);
  }

  lemma IssuesScheduling(s: State, h: Handle, u: nat)
    requires Scheduling(s) && s.preps != [] && h == s.preps[0].handle && h in s.places && s.places[h] == Prepared(u)
    ensures Scheduling(Issues(s))
  {
    var t := Issues(s);
    assert Elsewhere(s.places, t.places, h);
    assert t.places.Keys == s.places.Keys;
    SchedulingUntouched(s, t, h);
  }

  lemma IssuesFileOps(s: State)
    requires FileOps(s) && s.preps != []
    ensures FileOps(Issues(s))
  {
    assert PrepAgrees(s.preps[0], s.ops, s.nextUserData, s.places, s.cell);
    OpsIssue(s.preps, s.ops, s.nextUserData, s.places, s.cell);
  }

  lemma OpsComplete(preps: seq<PendingFileOpPrep>, ops: map<nat, PendingFileOp>, next: nat, p: Places, cell: map<Handle, nat>, u: nat, cause: Cause)
    requires OpsAgree(preps, ops, next, p, cell) && u in ops
    ensures OpsAgree(preps, ops - {u}, next, p[ops[u].handle := Runnable(cause)], cell)
  {
    var q := p[ops[u].handle := Runnable(cause)];
    assert OpAgrees(u, ops[u], p, cell);
    forall i | 0 <= i < |preps| ensures PrepAgrees(preps[i], ops - {u}, next, q, cell) {
      assert PrepAgrees(preps[i], ops, next, p, cell);
    }
    forall v | v in ops - {u} ensures v < next && OpAgrees(v, ops[v], q, cell) {
      assert OpAgrees(v, ops[v], p, cell);
    }
    forall h | h in q && q[h].Prepared? ensures exists i :: 0 <= i < |preps| && preps[i].handle == h {
      assert h in p && p[h].Prepared?;
    }
  }

  lemma CompletesKeeps(s: State, c: Completion)
    requires Core(s) && c.userData in s.ops
    ensures Core(Completes(s, c))
  {
    CompletesScheduling(s, c);
    var op := s.ops[c.userData];
    assert OpAgrees(c.userData, op, s.places, s.cell);
    OpsComplete(s.preps, s.ops, s.nextUserData, s.places, s.cell, c.userData, Cause.Completed(c.userData));
    CellsComplete(s.places, s.cell, s.results, s.reported, op.handle, c);
    CompletionReported(s.preps, s.ops, s.nextUserData, s.reported, s.places, s.cell, c);
  }

  lemma CompletionReported(preps: seq<PendingFileOpPrep>, ops: map<nat, PendingFileOp>, next: nat, reported: map<nat, int>, p: Places, cell: map<Handle, nat>, c: Completion)
    requires ReportedAgree(preps, ops, next, reported) && OpsAgree(preps, ops, next, p, cell) && c.userData in ops
    ensures ReportedAgree(preps, ops - {c.userData}, next, reported[c.userData := c.result])
  {
    assert forall i :: 0 <= i < |preps| ==> PrepAgrees(preps[i], ops, next, p, cell);
  }

  lemma CompletesScheduling(s: State, c: Completion)
    requires Scheduling(s) && c.userData in s.ops && OpAgrees(c.userData, s.ops[c.userData], s.places, s.cell)
    ensures Scheduling(Completes(s, c))
  {
    var h := s.ops[c.userData].handle;
    var t := Completes(s, c);
    assert Elsewhere(s.places, t.places, h);
    SuspendedUntouched(s.suspended, s.places, t.places, h);
    BecomesRunnable(s.ready, s.places, h, Cause.Completed(c.userData));
    PoolUntouched(s.pool, s.places, t.places, h);
    assert t.places.Keys == s.places.Keys;
  }

  lemma CellsComplete(p: Places, cell: map<Handle, nat>, results: map<nat, int>, reported: map<nat, int>, h: Handle, c: Completion)
    requires CellsAgree(p, cell, results, reported) && h in p && p[h] == InFlight(c.userData) && c.userData !in reported
    ensures CellsAgree(p[h := Runnable(Cause.Completed(c.userData))], cell, results[cell[h] := c.result], reported[c.userData := c.result])
  {}

  lemma CellsSubmit(p: Places, cell: map<Handle, nat>, results: map<nat, int>, reported: map<nat, int>, h: Handle, u: nat, c: nat)
    requires CellsAgree(p, cell, results, reported) && h !in p
    requires forall g <- p :: p[g].OwnsCell() && g in cell ==> cell[g] != c
    ensures CellsAgree(p[h := Prepared(u)], cell[h := c], results, reported)
  {}

  lemma PostsKeeps(s: State, h: Handle)
    requires Core(s) && Running(s, h)
    ensures Core(Posts(s, h))
  {
    var t := Posts(s, h);
    assert Elsewhere(s.places, t.places, h);
    FileOpsUntouched(s, t, h);
    SuspendedUntouched(s.suspended, s.places, t.places, h);
    ReadyUntouched(s.ready, s.places, t.places, h);
    Joins(s.suspensions, s.resumptions, s.places, s.dropped, h, Posted);
  }

  lemma ReturnsKeeps(s: State)
    requires Core(s) && s.pool != []
    ensures Core(Returns(s))
  {
    var h := s.pool[0];
    assert h in s.places && s.places[h].Posted?;
    assert Elsewhere(s.places, Returns(s).places, h);
    FileOpsUntouched(s, Returns(s), h);
    ReturnsScheduling(s);
  }

  lemma ReturnsScheduling(s: State)
    requires Scheduling(s) && s.pool != []
    ensures Scheduling(Returns(s))
  {
    var t, h := Returns(s), s.pool[0];
    assert Elsewhere(s.places, t.places, h);
    SuspendedUntouched(s.suspended, s.places, t.places, h);
    BecomesRunnable(s.ready, s.places, h, Returned);
    PoolShifts(s.pool, s.places, t.places);
    assert t.places.Keys == s.places.Keys;
  }

  lemma PoolShifts(pool: seq<Handle>, p: Places, q: Places)
    requires PoolAgrees(pool, p) && pool != [] && Elsewhere(p, q, pool[0]) && pool[0] in q && !q[pool[0]].Posted?
    ensures PoolAgrees(pool[1..], q)
  {
    assert pool == [pool[0]] + pool[1..];
  }

  lemma SpawnsKeeps(s: State, h: Handle)
    requires Core(s) && Running(s, h)
    ensures Core(Spawns(s, h))
  {
    var t := Spawns(s, h);
    assert Elsewhere(s.places, t.places, h);
    FileOpsUntouched(s, t, h);
    SuspendedUntouched(s.suspended, s.places, t.places, h);
    BecomesRunnable(s.ready, s.places, h, Spawned);
    PoolUntouched(s.pool, s.places, t.places, h);
    Joins(s.suspensions, s.resumptions, s.places, s.dropped, h, Runnable(Spawned));
  }

  lemma ResumesKeeps(s: State)
    requires Core(s) && s.ready != []
    ensures Core(Resumes(s))
    ensures s.ready[0].task in s.places && s.places[s.ready[0].task].Runnable?
  {
    var t, h := Resumes(s), s.ready[0].task;
    LeavesReady(s.ready, s.places);
    assert Elsewhere(s.places, t.places, h);
    FileOpsUntouched(s, t, h);
    SuspendedUntouched(s.suspended, s.places, t.places, h);
    PoolUntouched(s.pool, s.places, t.places, h);
    Leaves(s.suspensions, s.resumptions, s.places, s.dropped, h);
  }

  lemma Leaves(suspensions: multiset<Handle>, resumptions: multiset<Handle>, p: Places, dropped: set<Handle>, h: Handle)
    requires Accounted(suspensions, resumptions, p, dropped) && h in p
    ensures Accounted(suspensions, resumptions + multiset{h}, p - {h}, dropped)
  {}

  // ---------------------------------------------------------------- deadlines

  /** The deadline a waiting coroutine gave when it started this wait. */
  function Due(s: State, k: int): int
    requires k in s.suspended && s.suspended[k].handle in s.own
  {
    s.own[s.suspended[k].handle].deadline
  }

  /** One turn of the sweep: the entry leaves the heap; a wait with its key and its sequence number ends. */
  function Expires(s: State, d: TaskDeadline): State {
    var k := Int32(d.fd);
    var t := s.(heap := s.heap - multiset{d});
    if k in s.suspended && s.suspended[k].suspensionSeq == d.suspensionSeq then Wakes(t, k, TimedOut) else t
  }

  /** The entry a turn takes away is not one that another wait relies on. */
  lemma ExpiresKeeps(s: State, d: TaskDeadline)
    requires Core(s) && d in s.heap
    ensures Core(Expires(s, d))
  {
    var k := Int32(d.fd);
    assert forall j <- s.suspended :: OwnDeadline(j, s.suspended[j], s.heap, s.own);
    if k in s.suspended && s.suspended[k].suspensionSeq == d.suspensionSeq {
      var v := Wakes(s, k, TimedOut);
      WakesKeeps(s, k, TimedOut);
      EntryGoes(v.suspended, v.heap, v.own, d);
      assert Expires(s, d) == v.(heap := v.heap - multiset{d});
    } else {
      EntryGoes(s.suspended, s.heap, s.own, d);
    }
  }

  lemma EntryGoes(suspended: map<int, SuspendedTask>, heap: multiset<TaskDeadline>, own: map<Handle, TaskDeadline>, d: TaskDeadline)
    requires DeadlinesKept(suspended, heap, own)
    requires forall j <- suspended :: own[suspended[j].handle] != d
    ensures DeadlinesKept(suspended, heap - multiset{d}, own)
  {
    forall j | j in suspended ensures OwnDeadline(j, suspended[j], heap - multiset{d}, own) {
      assert OwnDeadline(j, suspended[j], heap, own);
    }
  }

  /** With every entry later than `now`, so is every wait's deadline. */
  lemma NoneOverdue(s: State, now: int)
    requires DeadlinesKept(s.suspended, s.heap, s.own) && forall d <- s.heap :: d.deadline > now
    ensures forall k <- s.suspended :: s.suspended[k].handle in s.own && Due(s, k) > now
  {
    forall k | k in s.suspended ensures s.suspended[k].handle in s.own && Due(s, k) > now {
      assert OwnDeadline(k, s.suspended[k], s.heap, s.own);
    }
  }

  // ---------------------------------------------------------------- runs

  datatype Step =
    | Spawn(h: Handle)
    | WaitForFd(fd: int, h: Handle, waitingForWrite: bool, deadline: int)
    | WaitForEvent(h: Handle, deadline: int)
    | FireEvent(key: int)
    | Unregister(fd: int)
    | Submit(op: FileOp, fd: int, h: Handle, resultPtr: nat)
    | Issue
    | Complete(completion: Completion)
    | Post(h: Handle)
    | DrainPool
    | Ready(fd: int)
    | Tick(now: int)
    | Sweep(entry: TaskDeadline)
    | Resume

  /** What each step needs. A wait on a descriptor that somebody waits on is allowed, and so is unregistering it. */
  predicate Enabled(s: State, step: Step) {
    match step
    case Spawn(h) => Running(s, h)
    case WaitForFd(fd, h, _, _) => 0 <= fd < TWO31 && Running(s, h)
    case WaitForEvent(h, _) => Running(s, h)
    case FireEvent(_) => true
    case Unregister(_) => true
    case Submit(_, _, h, resultPtr) => Running(s, h) && CellFree(s, resultPtr)
    case Issue => s.preps != []
    case Complete(c) => c.userData in s.ops
    case Post(h) => Running(s, h)
    case DrainPool => s.pool != []
    case Ready(fd) => fd in s.suspended
    case Tick(now) => s.clock <= now
    case Sweep(d) => d in s.heap && d.deadline <= s.clock
    case Resume => s.ready != []
  }

  function Fires(s: State, key: int): State {
    if Int32(key) in s.suspended then Wakes(s, Int32(key), Woken) else s
  }

  function WaitsForEvent(s: State, h: Handle, deadline: int): State {
    Waits(s.(syntheticEventKey := s.syntheticEventKey - 1), s.syntheticEventKey, h, false, deadline)
  }

  function Next(s: State, step: Step): State
    requires Enabled(s, step)
  {
    match step
    case Spawn(h) => Spawns(s, h)
    case WaitForFd(fd, h, w, deadline) => Waits(s, fd, h, w, deadline)
    case WaitForEvent(h, deadline) => WaitsForEvent(s, h, deadline)
    case FireEvent(key) => Fires(s, key)
    case Unregister(fd) => Vacates(s, fd)
    case Submit(op, fd, h, resultPtr) => Submits(s, op, fd, h, resultPtr)
    case Issue => Issues(s)
    case Complete(c) => Completes(s, c)
    case Post(h) => Posts(s, h)
    case DrainPool => Returns(s)
    case Ready(fd) => Wakes(s, fd, Woken)
    case Tick(now) => s.(clock := now)
    case Sweep(d) => Expires(s, d)
    case Resume => Resumes(s)
  }

  /** An event's key is no descriptor's until two thousand million of them have been used, and never that of an earlier event. */
  lemma WaitsForEventKeeps(s: State, h: Handle, deadline: int)
    requires Inv(s) && Running(s, h)
    ensures Inv(WaitsForEvent(s, h, deadline))
    ensures s.syntheticEventKey >= -TWO31 ==> Int32(s.syntheticEventKey) !in s.suspended
  {
    var v := s.(syntheticEventKey := s.syntheticEventKey - 1);
    assert Scheduling(v) && FileOps(v);
    WaitsKeeps(v, s.syntheticEventKey, h, false, deadline);
  }

  lemma TickKeeps(s: State, now: int)
    requires Core(s) && s.clock <= now
    ensures Core(s.(clock := now))
  {}

  /** The steps that only move coroutines through queues and file operations. */
  lemma QueueStepKeeps(s: State, step: Step)
    requires Core(s) && Enabled(s, step)
    requires step.Spawn? || step.Submit? || step.Issue? || step.Complete? || step.Post? || step.DrainPool? || step.Resume?
    ensures Core(Next(s, step))
  {
    match step
    case Spawn(h) => SpawnsKeeps(s, h);
    case Submit(op, fd, h, resultPtr) => SubmitsKeeps(s, op, fd, h, resultPtr);
    case Issue => IssuesKeeps(s);
    case Complete(c) => CompletesKeeps(s, c);
    case Post(h) => PostsKeeps(s, h);
    case DrainPool => ReturnsKeeps(s);
    case Resume => ResumesKeeps(s);
  }

  lemma WaitStepKeeps(s: State, step: Step)
    requires Inv(s) && Enabled(s, step)
    requires step.WaitForFd? || step.FireEvent? || step.Unregister? || step.Ready? || step.Tick? || step.Sweep?
    ensures Core(Next(s, step))
  {
    match step
    case WaitForFd(fd, h, w, deadline) => WaitsKeeps(s, fd, h, w, deadline);
    case FireEvent(key) => if Int32(key) in s.suspended { WakesKeeps(s, Int32(key), Woken); }
    case Unregister(fd) => if fd in s.suspended { ForgetsKeeps(s, fd); }
    case Ready(fd) => WakesKeeps(s, fd, Woken);
    case Tick(now) => TickKeeps(s, now);
    case Sweep(d) => ExpiresKeeps(s, d);
  }

  /** Every step keeps the containers and the bookkeeping in agreement. */
  lemma StepKeeps(s: State, step: Step)
    requires Inv(s) && Enabled(s, step)
    ensures Inv(Next(s, step))
  {
    if step.WaitForEvent? {
      WaitsForEventKeeps(s, step.h, step.deadline);
    } else if step.Spawn? || step.Submit? || step.Issue? || step.Complete? || step.Post? || step.DrainPool? || step.Resume? {
      QueueStepKeeps(s, step);
    } else {
      WaitStepKeeps(s, step);
    }
  }

  function Initial(): State {
    State([], map[], multiset{}, 0, -1, [], map[], 0, [], map[], map[], {}, multiset{}, multiset{}, map[], map[], map[], 0)
  }

  /** A second waiter on a key somebody waits on, or the end of a descriptor somebody waits on. */
  predicate Collides(s: State, step: Step) {
    match step
    case WaitForFd(fd, _, _, _) => fd in s.suspended
    case WaitForEvent(_, _) => Int32(s.syntheticEventKey) in s.suspended
    case Unregister(fd) => fd in s.suspended
    case _ => false
  }

  /** Any steps at all, one after the other. */
  ghost predicate Trace(states: seq<State>, steps: seq<Step>) {
    && |states| == |steps| + 1 && states[0] == Initial()
    && forall i :: 0 <= i < |steps| ==> Enabled(states[i], steps[i]) && states[i + 1] == Next(states[i], steps[i])
  }

  ghost predicate Orderly(states: seq<State>, steps: seq<Step>)
    requires Trace(states, steps)
  {
    forall i :: 0 <= i < |steps| ==> !Collides(states[i], steps[i])
  }

  lemma VacatesDropped(s: State, k: int)
    requires SuspendedAgrees(s.suspended, s.places) && s.places.Keys !! s.dropped
    ensures Vacates(s, k).dropped != s.dropped <==> k in s.suspended
    ensures s.dropped <= Vacates(s, k).dropped
  {
    if k in s.suspended {
      assert s.suspended[k].handle in s.places;
    }
  }

  /** A coroutine is lost in exactly the steps that collide. */
  lemma LostWhenColliding(s: State, step: Step)
    requires SuspendedAgrees(s.suspended, s.places) && s.places.Keys !! s.dropped && Enabled(s, step)
    ensures Next(s, step).dropped != s.dropped <==> Collides(s, step)
    ensures s.dropped <= Next(s, step).dropped
  {
    match step
    case WaitForFd(fd, _, _, _) => VacatesDropped(s, fd);
    case WaitForEvent(_, _) =>
      VacatesDropped(s, Int32(s.syntheticEventKey));
    case Unregister(fd) => VacatesDropped(s, fd);
    case _ =>
  }

  /**
   * Over every run, of coroutines, the kernel, the clock and other threads in any order: the containers agree with
   * one another, and each suspension of a coroutine has been resumed once or the coroutine sits in exactly one
   * container. Coroutines are lost if and only if steps collided.
   */
  lemma {:induction false} EveryRun(states: seq<State>, steps: seq<Step>)
    requires Trace(states, steps)
    ensures Inv(states[|steps|])
    ensures states[|steps|].dropped == {} <==> Orderly(states, steps)
  {
    if steps != [] {
      var n := |steps| - 1;
      OrderlyOneMore(states, steps);
      EveryRun(states[..n + 1], steps[..n]);
      StepKeeps(states[n], steps[n]);
      LostWhenColliding(states[n], steps[n]);
    }
  }

  /** In a run without collisions every suspension has been resumed once, or its coroutine is in the executor. */
  lemma ResumedOnce(states: seq<State>, steps: seq<Step>, h: Handle)
    requires Trace(states, steps) && Orderly(states, steps)
    ensures var s := states[|steps|]; s.suspensions[h] == s.resumptions[h] + if h in s.places then 1 else 0
  {
    EveryRun(states, steps);
    var s := states[|steps|];
    assert Accounted(s.suspensions, s.resumptions, s.places, s.dropped);
  }

  lemma Shorter(states: seq<State>, steps: seq<Step>)
    requires Trace(states, steps) && steps != []
    ensures var n := |steps| - 1;
      && Trace(states[..n + 1], steps[..n]) && Enabled(states[n], steps[n]) && states[n + 1] == Next(states[n], steps[n])
      && forall i :: 0 <= i < n ==> steps[..n][i] == steps[i] && states[..n + 1][i] == states[i]
  {}

  lemma OrderlyOneMore(states: seq<State>, steps: seq<Step>)
    requires Trace(states, steps) && steps != []
    ensures var n := |steps| - 1;
      Trace(states[..n + 1], steps[..n]) && (Orderly(states, steps) <==> Orderly(states[..n + 1], steps[..n]) && !Collides(states[n], steps[n]))
  {
    Shorter(states, steps);
  }

  lemma UnconfusedOneMore(states: seq<State>, steps: seq<Step>)
    requires Trace(states, steps) && steps != []
    ensures var n := |steps| - 1;
      Trace(states[..n + 1], steps[..n]) && (Unconfused(states, steps) <==> Unconfused(states[..n + 1], steps[..n]) && !Confuses(states[n], steps[n]))
  {
    Shorter(states, steps);
  }

  // ---------------------------------------------------------------- timeouts over runs

  /** An older entry of the same key, with the sequence number a new wait will get, has an earlier deadline. */
  ghost predicate EarlierTwin(s: State, e: TaskDeadline, key: int, deadline: int) {
    e in s.heap && Int32(e.fd) == Int32(key) && e.suspensionSeq == Int32(s.nextSeq) && e.deadline < deadline
  }

  /** A wait whose sequence number, cut to `int`, is that of an outdated entry for the same key. */
  ghost predicate Confuses(s: State, step: Step) {
    match step
    case WaitForFd(fd, _, _, deadline) => exists e :: EarlierTwin(s, e, fd, deadline)
    case WaitForEvent(_, deadline) => exists e :: EarlierTwin(s, e, s.syntheticEventKey, deadline)
    case _ => false
  }

  ghost predicate Unconfused(states: seq<State>, steps: seq<Step>)
    requires Trace(states, steps)
  {
    forall i :: 0 <= i < |steps| ==> !Confuses(states[i], steps[i])
  }

  lemma TimelyWait(s: State, key: int, caller: Handle, waitingForWrite: bool, deadline: int)
    requires SuspendedAgrees(s.suspended, s.places) && Timely(s) && Running(s, caller)
    ensures Timely(Waits(s, key, caller, waitingForWrite, deadline)) <==> !exists e :: EarlierTwin(s, e, key, deadline)
  {
    var k, t := Int32(key), Waits(s, key, caller, waitingForWrite, deadline);
    if e :| EarlierTwin(s, e, key, deadline) {
      assert e in t.heap && Current(e, k, t.suspended[k]) && !EndsNoEarlier(e, t.suspended[k], t.own);
    } else {
      NoTwinEndsEarly(s, key, caller, waitingForWrite, deadline);
      TimedOutElsewhere(s, t, caller);
    }
  }

  lemma NoTwinEndsEarly(s: State, key: int, caller: Handle, waitingForWrite: bool, deadline: int)
    requires SuspendedAgrees(s.suspended, s.places) && Timely(s) && Running(s, caller)
    requires forall e :: !EarlierTwin(s, e, key, deadline)
    ensures var t := Waits(s, key, caller, waitingForWrite, deadline);
      forall j, e :: j in t.suspended && e in t.heap && Current(e, j, t.suspended[j]) ==> EndsNoEarlier(e, t.suspended[j], t.own)
  {
    var k, t := Int32(key), Waits(s, key, caller, waitingForWrite, deadline);
    var d := TaskDeadline(deadline, key, Int32(s.nextSeq));
    forall j, e | j in t.suspended && e in t.heap && Current(e, j, t.suspended[j])
      ensures EndsNoEarlier(e, t.suspended[j], t.own)
    {
      assert e == d || e in s.heap;
      if j == k {
        assert e == d || !EarlierTwin(s, e, key, deadline);
      } else {
        assert s.suspended[j].handle in s.places;
        assert EndsNoEarlier(e, s.suspended[j], s.own);
      }
    }
  }

  lemma TimedOutElsewhere(s: State, t: State, caller: Handle)
    requires TimeoutsAgree(s.places, s.own, s.clock) && caller !in s.places && t.clock == s.clock
    requires forall h <- t.places :: h != caller ==> h in s.places && t.places[h] == s.places[h]
    requires caller in t.places && t.places[caller] != Runnable(TimedOut)
    requires forall h <- s.own :: h != caller ==> h in t.own && t.own[h] == s.own[h]
    ensures TimeoutsAgree(t.places, t.own, t.clock)
  {}

  /** Steps that start no wait and tell nobody of a timeout. */
  lemma TimelyShrinks(s: State, t: State)
    requires Timely(s) && t.own == s.own && s.clock <= t.clock
    requires forall k <- t.suspended :: k in s.suspended && t.suspended[k] == s.suspended[k]
    requires forall d <- t.heap :: d in s.heap
    requires forall h <- t.places :: t.places[h] == Runnable(TimedOut) ==> h in s.places && s.places[h] == Runnable(TimedOut)
    ensures Timely(t)
  {}

  lemma TimelySweep(s: State, d: TaskDeadline)
    requires Timely(s) && d in s.heap && d.deadline <= s.clock
    ensures Timely(Expires(s, d))
  {
    var k := Int32(d.fd);
    if k in s.suspended && s.suspended[k].suspensionSeq == d.suspensionSeq {
      assert Current(d, k, s.suspended[k]);
      assert EndsNoEarlier(d, s.suspended[k], s.own);
    }
  }

  /** From a state in which no entry ends a wait early, a step leads to another such state if and only if it is no confused wait. */
  lemma TimelyStep(s: State, step: Step)
    requires Inv(s) && Timely(s) && Enabled(s, step)
    ensures Timely(Next(s, step)) <==> !Confuses(s, step)
  {
    if step.WaitForFd? {
      TimelyWait(s, step.fd, step.h, step.waitingForWrite, step.deadline);
    } else if step.WaitForEvent? {
      TimelyEventWait(s, step.h, step.deadline);
    } else if step.Sweep? {
      TimelySweep(s, step.entry);
    } else {
      TimelyOther(s, step);
    }
  }

  lemma TimelyEventWait(s: State, h: Handle, deadline: int)
    requires SuspendedAgrees(s.suspended, s.places) && Timely(s) && Running(s, h)
    ensures Timely(WaitsForEvent(s, h, deadline)) <==> !exists e :: EarlierTwin(s, e, s.syntheticEventKey, deadline)
  {
    var v := s.(syntheticEventKey := s.syntheticEventKey - 1);
    TimelyWait(v, s.syntheticEventKey, h, false, deadline);
    assert forall e :: EarlierTwin(v, e, s.syntheticEventKey, deadline) <==> EarlierTwin(s, e, s.syntheticEventKey, deadline);
  }

  lemma TimelyOther(s: State, step: Step)
    requires Timely(s) && Enabled(s, step) && !step.WaitForFd? && !step.WaitForEvent? && !step.Sweep?
    ensures Timely(Next(s, step))
  {
    TimelyShrinks(s, Next(s, step));
  }

  /** Over every run in which no wait is confused, no wait has been or will be ended before its own deadline. */
  lemma {:induction false} EveryRunTimely(states: seq<State>, steps: seq<Step>)
    requires Trace(states, steps) && Unconfused(states, steps)
    ensures Inv(states[|steps|]) && Timely(states[|steps|])
  {
    EveryRun(states, steps);
    if steps != [] {
      var n := |steps| - 1;
      UnconfusedOneMore(states, steps);
      EveryRunTimely(states[..n + 1], steps[..n]);
      TimelyStep(states[n], steps[n]);
    }
  }

  /** A confused wait can be told that it timed out while its own deadline is still to come. */
  lemma ConfusedWaitEndsEarly(s: State, fd: int, h: Handle, waitingForWrite: bool, deadline: int, e: TaskDeadline)
    requires Enabled(s, WaitForFd(fd, h, waitingForWrite, deadline)) && EarlierTwin(s, e, fd, deadline) && s.clock < deadline
    ensures var waiting := Waits(s, fd, h, waitingForWrite, deadline);
      var later := waiting.(clock := if s.clock < e.deadline then e.deadline else s.clock);
      && Enabled(waiting, Tick(later.clock)) && Enabled(later, Sweep(e))
      && TimedOutEarly(Expires(later, e), h, deadline)
  {}

  predicate TimedOutEarly(t: State, h: Handle, deadline: int) {
    h in t.places && t.places[h] == Runnable(TimedOut) && h in t.own && t.own[h].deadline == deadline && t.clock < deadline
  }

  /** Until 2^32 waits have started, the entries' sequence numbers are all smaller than the next. */
  ghost predicate Numbered(s: State) {
    s.nextSeq <= TWO32 ==> forall d <- s.heap :: Raw(d.suspensionSeq) < s.nextSeq
  }

  lemma NumberedStep(s: State, step: Step)
    requires Numbered(s) && Enabled(s, step)
    ensures Numbered(Next(s, step))
    ensures s.nextSeq < TWO32 ==> !Confuses(s, step)
  {
    NextSeqGrows(s, step);
    HeapAfter(s, step);
    if s.nextSeq < TWO32 { RawInt32(s.nextSeq); }
  }

  lemma HeapAfter(s: State, step: Step)
    requires Enabled(s, step)
    ensures forall d <- Next(s, step).heap :: d in s.heap || ((step.WaitForFd? || step.WaitForEvent?) && d.suspensionSeq == Int32(s.nextSeq))
  {}

  /** In a run of at most 2^32 waits none is confused. */
  lemma {:induction false} FewWaitsUnconfused(states: seq<State>, steps: seq<Step>)
    requires Trace(states, steps) && states[|steps|].nextSeq <= TWO32
    ensures Unconfused(states, steps) && Numbered(states[|steps|])
  {
    if steps != [] {
      var n := |steps| - 1;
      UnconfusedOneMore(states, steps);
      NextSeqGrows(states[n], steps[n]);
      FewWaitsUnconfused(states[..n + 1], steps[..n]);
      NumberedStep(states[n], steps[n]);
    }
  }

  lemma NextSeqGrows(s: State, step: Step)
    requires Enabled(s, step)
    ensures s.nextSeq <= Next(s, step).nextSeq
    ensures !(step.WaitForFd? || step.WaitForEvent?) ==> Next(s, step).nextSeq == s.nextSeq
    ensures step.WaitForFd? || step.WaitForEvent? ==> Next(s, step).nextSeq == s.nextSeq + 1
  {
    match step
    case WaitForFd(_, _, _, _) =>
    case WaitForEvent(_, _) =>
    case Sweep(_) =>
    case FireEvent(_) =>
    case Unregister(_) =>
    case _ =>
  }

  ghost predicate Reachable(s: State) { exists states, steps :: Trace(states, steps) && states[|steps|] == s }

  lemma ReachableStep(s: State, step: Step)
    requires Reachable(s) && Enabled(s, step)
    ensures Reachable(Next(s, step))
  {
    var states, steps :| Trace(states, steps) && states[|steps|] == s;
    assert Trace(states + [Next(s, step)], steps + [step]);
  }

  const PATIENT := 1_000_000

  /** One coroutine has waited `n` times on descriptor 5, first with deadline 1 and then with a later one, and was woken each time. */
  ghost predicate WaitedBefore(s: State, n: nat) {
    && Reachable(s) && s.nextSeq == n && s.suspended == map[] && s.ready == [] && s.places == map[] && s.dropped == {} && s.clock == 0
    && TaskDeadline(1, 5, 0) in s.heap
  }

  predicate OneWaitLater(s: State, t: State, deadline: int) {
    && t.nextSeq == s.nextSeq + 1 && t.suspended == map[] && t.ready == [] && t.places == map[] && t.dropped == {}
    && t.clock == s.clock && t.heap == s.heap + multiset{TaskDeadline(deadline, 5, Int32(s.nextSeq))}
  }

  lemma WaitAndWake(s: State, deadline: int)
    requires Reachable(s) && s.suspended == map[] && s.ready == [] && s.places == map[] && s.dropped == {}
    ensures exists t :: Reachable(t) && OneWaitLater(s, t, deadline)
  {
    var a := Next(s, WaitForFd(5, 0, false, deadline));
    ReachableStep(s, WaitForFd(5, 0, false, deadline));
    var b := Next(a, Ready(5));
    ReachableStep(a, Ready(5));
    ReachableStep(b, Resume);
    var t := Next(b, Resume);
    assert t.suspended == map[] && t.places == map[];
    assert OneWaitLater(s, t, deadline);
  }

  lemma {:induction false} WaitsBefore(n: nat)
    requires n > 0
    ensures exists s :: WaitedBefore(s, n)
  {
    if n == 1 {
      assert Trace([Initial()], []);
      WaitAndWake(Initial(), 1);
      var t :| Reachable(t) && OneWaitLater(Initial(), t, 1);
      assert WaitedBefore(t, n);
    } else {
      WaitsBefore(n - 1);
      var s :| WaitedBefore(s, n - 1);
      WaitAndWake(s, PATIENT);
      var t :| Reachable(t) && OneWaitLater(s, t, PATIENT);
      assert WaitedBefore(t, n);
    }
  }

  /** Such a wait does happen: the wait number 2^32 of a coroutine that gave its first wait a shorter deadline. */
  lemma ConfusionHappens()
    ensures exists s: State, step :: Reachable(s) && Enabled(s, step) && Confuses(s, step) && s.nextSeq == TWO32
  {
    WaitsBefore(TWO32);
    var s :| WaitedBefore(s, TWO32);
    assert Int32(TWO32) == 0;
    assert EarlierTwin(s, TaskDeadline(1, 5, 0), 5, PATIENT);
    assert Confuses(s, WaitForFd(5, 0, false, PATIENT));
  }

  /** What a coroutine finds when it is resumed: its own timeout, and its own operation's result. */
  lemma ResumedRightly(s: State)
    requires Inv(s) && s.ready != []
    ensures var h := s.ready[0].task;
      && h in s.places && s.places[h].Runnable? && h !in Resumes(s).places
      && (Timely(s) && s.ready[0].timedOut ==> h in s.own && s.own[h].deadline <= s.clock)
      && (s.places[h].cause.Completed? ==>
            var u := s.places[h].cause.userData;
            h in s.cell && u in s.reported && s.cell[h] in s.results && s.results[s.cell[h]] == s.reported[u])
    ensures Core(Resumes(s))
  {
    ResumesKeeps(s);
  }

  // ---------------------------------------------------------------- loops of the executor

  function CompletesIfPending(s: State, c: Completion): State {
    if c.userData in s.ops then Completes(s, c) else s
  }

  function Drained(s: State, cs: seq<Completion>): State {
    if cs == [] then s else CompletesIfPending(Drained(s, cs[..|cs| - 1]), cs[|cs| - 1])
  }

  function Users(cs: seq<Completion>): set<nat> { set c <- cs :: c.userData }

  /** Operation `u`, pending in `s`, has been delivered in `t`: its coroutine is ready and its cell holds its result. */
  predicate Delivered(s: State, t: State, u: nat)
    requires u in s.ops
  {
    var op := s.ops[u];
    && op.handle in t.places && t.places[op.handle] == Runnable(Cause.Completed(u))
    && u in t.reported && op.resultPtr in t.results && t.results[op.resultPtr] == t.reported[u]
  }

  lemma OtherDelivered(s: State, t: State, u: nat, c: Completion)
    requires FileOps(s) && FileOps(t) && u in s.ops && u !in t.ops && Delivered(s, t, u) && c.userData in t.ops && t.cell == s.cell
    ensures Delivered(s, Completes(t, c), u)
  {
    assert OpAgrees(u, s.ops[u], s.places, s.cell);
    assert OpAgrees(c.userData, t.ops[c.userData], t.places, t.cell);
  }

  lemma NowDelivered(s: State, t: State, c: Completion)
    requires c.userData in s.ops && c.userData in t.ops && s.ops[c.userData] == t.ops[c.userData]
    ensures Delivered(s, Completes(t, c), c.userData)
  {}

  ghost predicate DrainedOf(s: State, t: State, done: set<nat>) {
    && t.ops == s.ops - done && t.preps == s.preps && t.cell == s.cell
    && (forall u <- s.ops :: u in done ==> Delivered(s, t, u))
  }

  lemma DrainOne(s: State, t: State, done: set<nat>, c: Completion)
    requires FileOps(s) && FileOps(t) && DrainedOf(s, t, done)
    ensures DrainedOf(s, CompletesIfPending(t, c), done + {c.userData})
  {
    if c.userData in t.ops {
      NowDelivered(s, t, c);
      forall u | u in s.ops && u in done ensures Delivered(s, Completes(t, c), u) {
        OtherDelivered(s, t, u, c);
      }
    }
  }

  /** Every pending operation named by a completion ends, each with the first result reported for it, and no other one. */
  lemma {:induction false} DrainedExactly(s: State, cs: seq<Completion>)
    requires Core(s)
    ensures Core(Drained(s, cs)) && DrainedOf(s, Drained(s, cs), Users(cs))
  {
    if cs != [] {
      var init, c := cs[..|cs| - 1], cs[|cs| - 1];
      DrainedExactly(s, init);
      assert Users(cs) == Users(init) + {c.userData} by { assert cs == init + [c]; }
      DrainOne(s, Drained(s, init), Users(init), c);
      if c.userData in Drained(s, init).ops { CompletesKeeps(Drained(s, init), c); }
    }
  }

  /** An event wakes the coroutine on its descriptor if it is an error or the direction waited for. */
  predicate ShouldWake(t: SuspendedTask, e: Event) {
    e.error || (t.waitingForWrite && e.writable) || (!t.waitingForWrite && e.readable)
  }

  function ReturnsAll(s: State, n: nat): (t: State)
    requires n <= |s.pool|
    ensures t.pool == s.pool[n..] && t.suspended == s.suspended && t.own == s.own && t.clock == s.clock
  {
    if n == 0 then s else Returns(ReturnsAll(s, n - 1))
  }

  function Hears(s: State, e: Event, eventFd: int): State {
    if e.fd == eventFd then ReturnsAll(s, |s.pool|)
    else if e.fd in s.suspended && ShouldWake(s.suspended[e.fd], e) then Wakes(s, e.fd, Woken)
    else s
  }

  function HearsAll(s: State, es: seq<Event>, eventFd: int): State {
    if es == [] then s else Hears(HearsAll(s, es[..|es| - 1], eventFd), es[|es| - 1], eventFd)
  }

  lemma {:induction false} ReturnsAllKeeps(s: State, n: nat)
    requires Core(s) && n <= |s.pool|
    ensures Core(ReturnsAll(s, n))
  {
    if n > 0 {
      ReturnsAllKeeps(s, n - 1);
      ReturnsKeeps(ReturnsAll(s, n - 1));
    }
  }

  /** Posted coroutines become ready in the order they were posted. */
  lemma {:induction false} ReturnsInOrder(s: State, n: nat)
    requires n <= |s.pool|
    ensures Tasks(ReturnsAll(s, n).ready) == Tasks(s.ready) + s.pool[..n]
  {
    if n > 0 {
      ReturnsInOrder(s, n - 1);
      var t := ReturnsAll(s, n - 1);
      assert s.pool[..n] == s.pool[..n - 1] + [s.pool[n - 1]];
      assert Tasks(Returns(t).ready) == Tasks(t.ready) + [t.pool[0]];
    }
  }

  predicate WokenBy(t: SuspendedTask, fd: int, es: seq<Event>, eventFd: int) {
    fd != eventFd && exists i :: 0 <= i < |es| && es[i].fd == fd && ShouldWake(t, es[i])
  }

  predicate Rung(es: seq<Event>, eventFd: int) { exists i :: 0 <= i < |es| && es[i].fd == eventFd }

  ghost predicate HeardExactly(s: State, t: State, es: seq<Event>, eventFd: int) {
    && t.own == s.own && t.clock == s.clock
    && (forall k :: k in t.suspended <==> k in s.suspended && !WokenBy(s.suspended[k], k, es, eventFd))
    && (forall k <- t.suspended :: t.suspended[k] == s.suspended[k])
    && t.pool == if Rung(es, eventFd) then [] else s.pool
  }

  lemma {:induction false} HearsAllKeeps(s: State, es: seq<Event>, eventFd: int)
    requires Core(s)
    ensures Core(HearsAll(s, es, eventFd))
  {
    if es != [] {
      var init, e := es[..|es| - 1], es[|es| - 1];
      HearsAllKeeps(s, init, eventFd);
      HearsKeeps(HearsAll(s, init, eventFd), e, eventFd);
    }
  }

  lemma HearsKeeps(s: State, e: Event, eventFd: int)
    requires Core(s)
    ensures Core(Hears(s, e, eventFd))
  {
    if e.fd == eventFd {
      ReturnsAllKeeps(s, |s.pool|);
    } else if e.fd in s.suspended && ShouldWake(s.suspended[e.fd], e) {
      WakesKeeps(s, e.fd, Woken);
    }
  }

  /** A coroutine waiting on a descriptor stays if and only if none of the events is one it waits for. */
  lemma {:induction false} HearsAllExactly(s: State, es: seq<Event>, eventFd: int)
    ensures HeardExactly(s, HearsAll(s, es, eventFd), es, eventFd)
  {
    if es != [] {
      var init, e := es[..|es| - 1], es[|es| - 1];
      HearsAllExactly(s, init, eventFd);
      HearOne(s, HearsAll(s, init, eventFd), init, e, eventFd);
      assert es == init + [e];
    }
  }

  lemma WokenByOneMore(t: SuspendedTask, fd: int, es: seq<Event>, e: Event, eventFd: int)
    ensures WokenBy(t, fd, es + [e], eventFd) <==> WokenBy(t, fd, es, eventFd) || (fd != eventFd && e.fd == fd && ShouldWake(t, e))
  {
    var after := es + [e];
    assert after[|es|] == e;
    assert forall i :: 0 <= i < |es| ==> after[i] == es[i];
  }

  lemma RungOneMore(es: seq<Event>, e: Event, eventFd: int)
    ensures Rung(es + [e], eventFd) <==> Rung(es, eventFd) || e.fd == eventFd
  {
    var after := es + [e];
    assert after[|es|] == e;
    assert forall i :: 0 <= i < |es| ==> after[i] == es[i];
  }

  lemma HearOne(s: State, t: State, es: seq<Event>, e: Event, eventFd: int)
    requires HeardExactly(s, t, es, eventFd)
    ensures HeardExactly(s, Hears(t, e, eventFd), es + [e], eventFd)
  {
    RungOneMore(es, e, eventFd);
    var v := Hears(t, e, eventFd);
    forall k ensures k in v.suspended <==> k in s.suspended && !WokenBy(s.suspended[k], k, es + [e], eventFd) {
      if k in s.suspended {
        WokenByOneMore(s.suspended[k], k, es, e, eventFd);
        assert k in t.suspended <==> !WokenBy(s.suspended[k], k, es, eventFd);
        assert k in t.suspended ==> t.suspended[k] == s.suspended[k];
        assert k in v.suspended <==> k in t.suspended && !(k != eventFd && e.fd == k && ShouldWake(t.suspended[k], e));
      }
    }
  }

  /** Some waits have ended, all of them overdue if no entry ends a wait early, and nothing else has changed. */
  ghost predicate SweptSoFar(s: State, t: State, now: int) {
    && t.clock == s.clock && t.nextSeq == s.nextSeq && t.syntheticEventKey == s.syntheticEventKey
    && t.own == s.own && t.preps == s.preps && t.ops == s.ops && t.pool == s.pool && t.dropped == s.dropped
    && (forall d <- t.heap :: d in s.heap)
    && (forall k <- t.suspended :: k in s.suspended && t.suspended[k] == s.suspended[k])
    && (forall k <- s.suspended :: s.suspended[k].handle in s.own && (Timely(s) && Due(s, k) > now ==> k in t.suspended))
    && (forall k <- s.suspended :: k !in t.suspended ==>
          s.suspended[k].handle in t.places && t.places[s.suspended[k].handle] == Runnable(TimedOut))
  }

  /**
   * The waits that go on have deadlines later than `now`, and they are all that have if no entry ends a wait early; the
   * others' coroutines are told they timed out.
   */
  ghost predicate Swept(s: State, t: State, now: int) {
    && SweptSoFar(s.(clock := now), t, now)
    && (forall k <- t.suspended :: Due(s, k) > now)
    && (Timely(s) ==> forall k <- s.suspended :: Due(s, k) > now ==> k in t.suspended)
  }

  lemma SweepStarts(s: State, now: int)
    requires DeadlinesKept(s.suspended, s.heap, s.own)
    ensures SweptSoFar(s, s, now)
  {
    assert forall k <- s.suspended :: OwnDeadline(k, s.suspended[k], s.heap, s.own);
  }

  lemma SweepOne(s: State, t: State, d: TaskDeadline, now: int)
    requires SweptSoFar(s, t, now) && d in t.heap && d.deadline <= now
    ensures SweptSoFar(s, Expires(t, d), now)
  {
    var k := Int32(d.fd);
    if k in t.suspended && t.suspended[k].suspensionSeq == d.suspensionSeq && Timely(s) {
      assert Current(d, k, s.suspended[k]);
      assert EndsNoEarlier(d, s.suspended[k], s.own);
    }
  }

  lemma SweepEnds(before: State, s: State, t: State, now: int)
    requires s == before.(clock := now) && before.clock <= now && SweptSoFar(s, t, now)
    requires forall k <- t.suspended :: t.suspended[k].handle in t.own && Due(t, k) > now
    ensures Swept(before, t, now)
  {}

  function IssuesMany(s: State, n: nat): (t: State)
    requires n <= |s.preps|
    ensures t.preps == s.preps[n..] && t == s.(preps := t.preps, ops := t.ops, places := t.places)
  {
    if n == 0 then s else Issues(IssuesMany(s, n - 1))
  }

  lemma {:induction false} IssuesManyKeeps(s: State, n: nat)
    requires Core(s) && n <= |s.preps|
    ensures Core(IssuesMany(s, n))
  {
    if n > 0 {
      IssuesManyKeeps(s, n - 1);
      IssuesKeeps(IssuesMany(s, n - 1));
    }
  }

  /** The operations that found room are in flight with their own handle and result cell; none disappears. */
  lemma {:induction false} IssuedOrKept(s: State, n: nat)
    requires FileOps(s) && n <= |s.preps|
    ensures var t := IssuesMany(s, n);
      && (forall i :: 0 <= i < n ==> InFlightAs(t.ops, s.preps[i]))
      && (forall u <- s.ops :: u in t.ops && t.ops[u] == s.ops[u])
  {
    if n > 0 {
      IssuedOrKept(s, n - 1);
      var p := s.preps[n - 1];
      assert IssuesMany(s, n - 1).preps[0] == p;
      assert PrepAgrees(p, s.ops, s.nextUserData, s.places, s.cell);
      forall i | 0 <= i < n ensures InFlightAs(IssuesMany(s, n).ops, s.preps[i]) {
        if i < n - 1 { assert InFlightAs(IssuesMany(s, n - 1).ops, s.preps[i]); }
      }
    }
  }

  predicate InFlightAs(ops: map<nat, PendingFileOp>, p: PendingFileOpPrep) {
    p.userData in ops && ops[p.userData] == PendingFileOp(p.handle, p.resultPtr)
  }

  lemma {:induction false} DrainedLeaves(s: State, cs: seq<Completion>)
    ensures Drained(s, cs).nextSeq == s.nextSeq && Drained(s, cs).syntheticEventKey == s.syntheticEventKey
  {
    if cs != [] { DrainedLeaves(s, cs[..|cs| - 1]); }
  }

  lemma EarliestExists(heap: multiset<TaskDeadline>)
    requires |heap| > 0
    ensures exists d :: d in heap && forall e <- heap :: d.deadline <= e.deadline
    decreases |heap|
  {
    var d :| d in heap;
    var rest := heap - multiset{d};
    assert forall e :: e in heap ==> e == d || e in rest;
    if |rest| > 0 {
      EarliestExists(rest);
      var m :| m in rest && forall e <- rest :: m.deadline <= e.deadline;
      var best := if d.deadline <= m.deadline then d else m;
      assert best in heap && forall e <- heap :: best.deadline <= e.deadline;
    } else {
      assert forall e <- heap :: d.deadline <= e.deadline;
    }
  }
}
