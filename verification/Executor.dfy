/** The event loop: one executor per thread, with the scheduler's containers as its fields. */
module Executor {
  import opened Scheduler

  /** A task finds itself under its own address, and only owned tasks are listed. */
  predicate Indexed(tasks: seq<Handle>, index: map<Handle, nat>) {
    && (forall i :: 0 <= i < |tasks| ==> tasks[i] in index && index[tasks[i]] == i)
    && (forall h <- index :: index[h] < |tasks| && tasks[index[h]] == h)
  }

  /** The handles without the one at `i`: the last one takes its place. */
  function SwapRemove(tasks: seq<Handle>, i: nat): seq<Handle>
    requires i < |tasks|
  {
    tasks[i := tasks[|tasks| - 1]][..|tasks| - 1]
  }

  /** The index stays right, and exactly one task is gone. */
  lemma SwapRemoveIndexed(tasks: seq<Handle>, index: map<Handle, nat>, h: Handle)
    requires Indexed(tasks, index) && h in index
    ensures var i, last := index[h], tasks[|tasks| - 1];
      && Indexed(SwapRemove(tasks, i), (if i != |tasks| - 1 then index[last := i] else index) - {h})
      && |SwapRemove(tasks, i)| == |tasks| - 1
      && forall g :: g in SwapRemove(tasks, i) <==> g in tasks && g != h
  {
    var i, n := index[h], |tasks| - 1;
    var after := SwapRemove(tasks, i);
    assert forall j :: 0 <= j < n ==> after[j] == if j == i then tasks[n] else tasks[j];
    forall g | g in tasks && g != h ensures g in after {
      assert after[if index[g] == n then i else index[g]] == g;
    }
  }

  class Executor {
    var readyQueue: seq<ReadyTask>
    var suspendedTasks: map<int, SuspendedTask>
    var taskDeadlines: multiset<TaskDeadline>
    var nextSeq: nat
    var syntheticEventKey: int
    var pendingFileOpPreps: seq<PendingFileOpPrep>
    var pendingFileOps: map<nat, PendingFileOp>
    var nextUserData: nat
    var poolResumeQueue: seq<Handle>
    /** The memory that `resultPtr`s point to. */
    var results: map<nat, int>
    var ownedTasks: seq<Handle>
    var ownedTaskMap: map<Handle, nat>
    var finishedRoots: seq<Handle>
    const eventFd: int

    /** The scheduler's state as the steps describe it. */
    ghost var state: State

    /** The containers are those of the state. */
    ghost predicate Holds() reads this {
      && readyQueue == state.ready && suspendedTasks == state.suspended && taskDeadlines == state.heap
      && nextSeq == state.nextSeq && syntheticEventKey == state.syntheticEventKey
      && pendingFileOpPreps == state.preps && pendingFileOps == state.ops && nextUserData == state.nextUserData
      && poolResumeQueue == state.pool && results == state.results
    }

    ghost predicate Valid() reads this { Holds() && Inv(state) && Indexed(ownedTasks, ownedTaskMap) }

    constructor (eventFd: int)
      ensures Valid() && state == Initial() && ownedTasks == [] && finishedRoots == [] && this.eventFd == eventFd
    {
      this.eventFd := eventFd;
      readyQueue, suspendedTasks, taskDeadlines, nextSeq, syntheticEventKey := [], map[], multiset{}, 0, -1;
      pendingFileOpPreps, pendingFileOps, nextUserData, poolResumeQueue, results := [], map[], 0, [], map[];
      ownedTasks, ownedTaskMap, finishedRoots := [], map[], [];
      state := Initial();
    }

    // -------------------------------------------------------------- what coroutines and other threads call: a step each

    method Spawn(h: Handle)
      requires Holds() && Enabled(state, Step.Spawn(h)) && Indexed(ownedTasks, ownedTaskMap) && h !in ownedTaskMap
      modifies this`readyQueue, this`ownedTasks, this`ownedTaskMap, this`state
      ensures Holds() && state == Next(old(state), Step.Spawn(h))
      ensures Indexed(ownedTasks, ownedTaskMap) && ownedTasks == old(ownedTasks) + [h]
    {
      ownedTaskMap := ownedTaskMap[h := |ownedTasks|];
      ownedTasks := ownedTasks + [h];
      readyQueue := readyQueue + [ReadyTask(h, false)];
      state := Spawns(state, h);
    }

    /** `unregister` */
    method Unregister(fd: int)
      requires Holds()
      modifies this`suspendedTasks, this`state
      ensures Holds() && state == Next(old(state), Step.Unregister(fd))
    {
      suspendedTasks := suspendedTasks - {fd};
      state := Vacates(state, fd);
    }

    /** `waitForRead` and `waitForWrite` */
    method WaitFor(fd: int, caller: Handle, waitingForWrite: bool, deadline: int)
      requires Holds() && Enabled(state, WaitForFd(fd, caller, waitingForWrite, deadline))
      modifies this`suspendedTasks, this`taskDeadlines, this`nextSeq, this`state
      ensures Holds() && state == Next(old(state), WaitForFd(fd, caller, waitingForWrite, deadline))
    {
      Suspend(fd, caller, waitingForWrite, deadline);
    }

    /** The assignment to the suspended tasks, which takes an occupied key from its holder. */
    method Suspend(key: int, caller: Handle, waitingForWrite: bool, deadline: int)
      requires Holds()
      modifies this`suspendedTasks, this`taskDeadlines, this`nextSeq, this`state
      ensures Holds() && state == Waits(old(state), key, caller, waitingForWrite, deadline)
    {
      WaitContainers(state, key, caller, waitingForWrite, deadline);
      var seqNo := Int32(nextSeq);
      nextSeq := nextSeq + 1;
      suspendedTasks := suspendedTasks[Int32(key) := SuspendedTask(caller, waitingForWrite, seqNo)];
      taskDeadlines := taskDeadlines + multiset{TaskDeadline(deadline, key, seqNo)};
      state := Waits(state, key, caller, waitingForWrite, deadline);
    }

    /** `waitForEvent` */
    method WaitForSynthetic(caller: Handle, deadline: int) returns (key: int)
      requires Holds() && Enabled(state, WaitForEvent(caller, deadline))
      modifies this`suspendedTasks, this`taskDeadlines, this`nextSeq, this`syntheticEventKey, this`state
      ensures Holds() && state == Next(old(state), WaitForEvent(caller, deadline)) && key == old(syntheticEventKey)
    {
      key := syntheticEventKey;
      syntheticEventKey := syntheticEventKey - 1;
      state := state.(syntheticEventKey := state.syntheticEventKey - 1);
      Suspend(key, caller, false, deadline);
    }

    /** `fireEvent` */
    method FireSynthetic(key: int)
      requires Holds()
      modifies this`readyQueue, this`suspendedTasks, this`state
      ensures Holds() && state == Next(old(state), FireEvent(key))
    {
      if Int32(key) in suspendedTasks { Wake(Int32(key), false, Woken); }
    }

    method Wake(k: int, timedOut: bool, ghost cause: Cause)
      requires Holds() && k in suspendedTasks && timedOut == cause.TimedOut?
      modifies this`readyQueue, this`suspendedTasks, this`state
      ensures Holds() && state == Wakes(old(state), k, cause)
    {
      readyQueue := readyQueue + [ReadyTask(suspendedTasks[k].handle, timedOut)];
      suspendedTasks := suspendedTasks - {k};
      state := Wakes(state, k, cause);
    }

    /** `submitFileRead` and `submitFileWrite` */
    method SubmitFileOp(op: FileOp, fd: int, h: Handle, resultPtr: nat)
      requires Holds() && Enabled(state, Submit(op, fd, h, resultPtr))
      modifies this`pendingFileOpPreps, this`nextUserData, this`state
      ensures Holds() && state == Next(old(state), Submit(op, fd, h, resultPtr))
    {
      pendingFileOpPreps := pendingFileOpPreps + [PendingFileOpPrep(op, fd, nextUserData, h, resultPtr)];
      nextUserData := nextUserData + 1;
      state := Submits(state, op, fd, h, resultPtr);
    }

    /** `post`, which other threads call. */
    method PostBack(h: Handle)
      requires Holds() && Enabled(state, Post(h))
      modifies this`poolResumeQueue, this`state
      ensures Holds() && state == Next(old(state), Post(h))
    {
      poolResumeQueue := poolResumeQueue + [h];
      state := Posts(state, h);
    }

    // -------------------------------------------------------------- one turn of the loop

    method OnCompletion(c: Completion)
      requires Holds()
      modifies this`readyQueue, this`pendingFileOps, this`results, this`state
      ensures Holds() && state == CompletesIfPending(old(state), c)
    {
      state := CompletesIfPending(state, c);
      if c.userData in pendingFileOps {
        var op := pendingFileOps[c.userData];
        results := results[op.resultPtr := c.result];
        readyQueue := readyQueue + [ReadyTask(op.handle, false)];
        pendingFileOps := pendingFileOps - {c.userData};
      }
    }

    /** Everything the kernel has finished is delivered, to the coroutine that asked for it. */
    method DrainCompletions(cs: seq<Completion>)
      requires Valid()
      modifies this`readyQueue, this`pendingFileOps, this`results, this`state
      ensures Valid() && state == Drained(old(state), cs) && DrainedOf(old(state), state, Users(cs))
    {
      DrainedExactly(state, cs);
      DrainedLeaves(state, cs);
      DeliverAll(cs);
    }

    method DeliverAll(cs: seq<Completion>)
      requires Holds()
      modifies this`readyQueue, this`pendingFileOps, this`results, this`state
      ensures Holds() && state == Drained(old(state), cs)
    {
      var i := 0;
      while i < |cs|
        invariant 0 <= i <= |cs| && Holds() && state == Drained(old(state), cs[..i])
      {
        assert cs[..i + 1][..i] == cs[..i];
        OnCompletion(cs[i]);
        i := i + 1;
      }
      assert cs[..i] == cs;
    }

    /** The coroutine at the front is resumed; it finds out whether it timed out. */
    method ResumeFront() returns (h: Handle, timedOut: bool)
      requires Valid() && readyQueue != []
      modifies this`readyQueue, this`state
      ensures Valid() && state == Resumes(old(state)) && ReadyTask(h, timedOut) == old(readyQueue)[0]
      ensures Running(state, h)
      ensures timedOut && Timely(old(state)) ==> h in state.own && state.own[h].deadline <= state.clock
    {
      ResumedRightly(state);
      h, timedOut := readyQueue[0].task, readyQueue[0].timedOut;
      readyQueue := readyQueue[1..];
      state := Resumes(state);
    }

    /** Finished roots are destroyed, each once; a root that is not owned is ignored. */
    method ReapFinished()
      requires Indexed(ownedTasks, ownedTaskMap)
      modifies this`ownedTasks, this`ownedTaskMap, this`finishedRoots
      ensures Indexed(ownedTasks, ownedTaskMap) && finishedRoots == []
      ensures forall h :: h in ownedTasks <==> h in old(ownedTasks) && h !in old(finishedRoots)
    {
      ghost var tasks, roots := ownedTasks, finishedRoots;
      while finishedRoots != []
        invariant Indexed(ownedTasks, ownedTaskMap)
        invariant |finishedRoots| <= |roots| && finishedRoots == roots[..|finishedRoots|]
        invariant forall h :: h in ownedTasks <==> h in tasks && h !in roots[|finishedRoots|..]
      {
        var n := |finishedRoots| - 1;
        var addr := finishedRoots[n];
        finishedRoots := finishedRoots[..n];
        assert roots[n..] == [addr] + roots[n + 1..];
        if addr in ownedTaskMap { RemoveOwned(addr); }
      }
      assert roots[0..] == roots;
    }

    method RemoveOwned(addr: Handle)
      requires Indexed(ownedTasks, ownedTaskMap) && addr in ownedTaskMap
      modifies this`ownedTasks, this`ownedTaskMap
      ensures Indexed(ownedTasks, ownedTaskMap) && |ownedTasks| == |old(ownedTasks)| - 1
      ensures forall h :: h in ownedTasks <==> h in old(ownedTasks) && h != addr
    {
      SwapRemoveIndexed(ownedTasks, ownedTaskMap, addr);
      var index := ownedTaskMap[addr];
      var last := |ownedTasks| - 1;
      if index != last {
        ownedTasks := ownedTasks[index := ownedTasks[last]];
        ownedTaskMap := ownedTaskMap[ownedTasks[index] := index];
      }
      ownedTasks := ownedTasks[..last];
      ownedTaskMap := ownedTaskMap - {addr};
    }

    /** Posted coroutines move to the ready queue. */
    method DrainPool()
      requires Holds()
      modifies this`readyQueue, this`poolResumeQueue, this`state
      ensures Holds() && state == ReturnsAll(old(state), |old(poolResumeQueue)|)
    {
      ghost var n: nat := 0;
      while poolResumeQueue != []
        invariant n <= |old(poolResumeQueue)| && Holds() && state == ReturnsAll(old(state), n)
        decreases |poolResumeQueue|
      {
        var h := poolResumeQueue[0];
        readyQueue := readyQueue + [ReadyTask(h, false)];
        poolResumeQueue := poolResumeQueue[1..];
        state := Returns(state);
        n := n + 1;
      }
    }

    method OnEvent(e: Event)
      requires Holds()
      modifies this`readyQueue, this`suspendedTasks, this`poolResumeQueue, this`state
      ensures Holds() && state == Hears(old(state), e, eventFd)
    {
      if e.fd == eventFd {
        DrainPool();
      } else if e.fd in suspendedTasks {
        var t := suspendedTasks[e.fd];
        if e.error || (t.waitingForWrite && e.writable) || (!t.waitingForWrite && e.readable) {
          Wake(e.fd, false, Woken);
        }
      }
    }

    /** Exactly the coroutines that wait for one of the events wake, and a ring of the event descriptor empties the pool queue. */
    method HandleEvents(es: seq<Event>)
      requires Valid()
      modifies this`readyQueue, this`suspendedTasks, this`poolResumeQueue, this`state
      ensures Valid() && state == HearsAll(old(state), es, eventFd) && HeardExactly(old(state), state, es, eventFd)
    {
      HearsAllKeeps(state, es, eventFd);
      HearsAllExactly(state, es, eventFd);
      OnEvents(es);
    }

    method OnEvents(es: seq<Event>)
      requires Holds()
      modifies this`readyQueue, this`suspendedTasks, this`poolResumeQueue, this`state
      ensures Holds() && state == HearsAll(old(state), es, eventFd)
    {
      var i := 0;
      while i < |es|
        invariant 0 <= i <= |es| && Holds() && state == HearsAll(old(state), es[..i], eventFd)
      {
        assert es[..i + 1][..i] == es[..i];
        OnEvent(es[i]);
        i := i + 1;
      }
      assert es[..i] == es;
    }

    /** The heap's top: an entry no later than any other. */
    method Top() returns (d: TaskDeadline)
      requires |taskDeadlines| > 0
      ensures d in taskDeadlines && forall e <- taskDeadlines :: d.deadline <= e.deadline
    {
      EarliestExists(taskDeadlines);
      d :| d in taskDeadlines && forall e <- taskDeadlines :: d.deadline <= e.deadline;
    }

    method Expire(d: TaskDeadline)
      requires Holds() && d in taskDeadlines
      modifies this`readyQueue, this`suspendedTasks, this`taskDeadlines, this`state
      ensures Holds() && state == Expires(old(state), d) && |taskDeadlines| < |old(taskDeadlines)|
    {
      taskDeadlines := taskDeadlines - multiset{d};
      if Int32(d.fd) !in suspendedTasks || suspendedTasks[Int32(d.fd)].suspensionSeq != d.suspensionSeq {
        state := Expires(state, d);
        return;
      }
      state := state.(heap := state.heap - multiset{d});
      Wake(Int32(d.fd), true, TimedOut);
    }

    /**
     * After the sweep only waits are left whose own deadline is still to come, and all of them unless an outdated entry
     * ends one early.
     */
    method SweepDeadlines(now: int)
      requires Valid() && state.clock <= now
      modifies this`readyQueue, this`suspendedTasks, this`taskDeadlines, this`state
      ensures Valid() && state.clock == now && Swept(old(state), state, now)
    {
      TickKeeps(state, now);
      state := state.(clock := now);
      ghost var s := state;
      SweepOverdue(now);
      SweepEnds(old(state), s, state, now);
    }

    method SweepOverdue(now: int)
      requires Holds() && Core(state)
      modifies this`readyQueue, this`suspendedTasks, this`taskDeadlines, this`state
      ensures Holds() && Core(state) && SweptSoFar(old(state), state, now)
      ensures forall k <- state.suspended :: state.suspended[k].handle in state.own && Due(state, k) > now
    {
      SweepStarts(state, now);
      while |taskDeadlines| > 0
        invariant Holds() && Core(state) && SweptSoFar(old(state), state, now)
        decreases |taskDeadlines|
      {
        var d := Top();
        if d.deadline > now { break; }
        ExpiresKeeps(state, d);
        SweepOne(old(state), state, d, now);
        Expire(d);
      }
      NoneOverdue(state, now);
    }

    /** Prepared operations enter the submission ring until it is full; the rest stay, in order. */
    method PrepareOps() returns (ghost n: nat)
      requires Valid()
      modifies this`pendingFileOpPreps, this`pendingFileOps, this`state
      ensures Valid() && n <= |old(state).preps| && state == IssuesMany(old(state), n)
    {
      n := IssueUntilFull();
      IssuesManyKeeps(old(state), n);
    }

    method IssueUntilFull() returns (ghost n: nat)
      requires Holds()
      modifies this`pendingFileOpPreps, this`pendingFileOps, this`state
      ensures Holds() && n <= |old(state).preps| && state == IssuesMany(old(state), n)
    {
      n := 0;
      while pendingFileOpPreps != []
        invariant Holds() && n <= |old(state).preps| && state == IssuesMany(old(state), n)
        decreases |pendingFileOpPreps|
      {
        var ringHasRoom: bool := *;
        if !ringHasRoom { break; }
        var p := pendingFileOpPreps[0];
        pendingFileOps := pendingFileOps[p.userData := PendingFileOp(p.handle, p.resultPtr)];
        pendingFileOpPreps := pendingFileOpPreps[1..];
        state := Issues(state);
        n := n + 1;
      }
    }

    /**
     * The part of a turn after the ready coroutines have run: events, then the clock, then new operations. No wait
     * that the loop goes round with is overdue.
     */
    method Poll(es: seq<Event>, now: int)
      requires Valid() && state.clock <= now
      modifies this`readyQueue, this`suspendedTasks, this`poolResumeQueue, this`taskDeadlines, this`pendingFileOpPreps,
               this`pendingFileOps, this`state
      ensures Valid()
      ensures forall k <- state.suspended :: state.suspended[k].handle in state.own && Due(state, k) > now
    {
      HandleEvents(es);
      SweepDeadlines(now);
      ghost var n := PrepareOps();
    }
  }
}
