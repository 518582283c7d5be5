/** The job queue of the thread pool, its workers and their condition variable, one critical section at a time. */
module ThreadPool {
  type Job = nat
  type Worker = nat

  datatype WorkerState = Awake | Asleep | Busy(job: Job) | Returned

  datatype State = State(
    jobQueue: seq<Job>,
    maxQueueSize: nat,
    shutdown: bool,
    workers: map<Worker, WorkerState>,
    /** `notify_one` calls still to be made by threads that have enqueued. */
    notifiers: nat,
    accepted: seq<Job>,
    started: seq<Job>,
    finished: multiset<Job>)

  datatype Step =
    | Enqueue(job: Job)
    | Notify(woken: Worker)
    | NotifyNobody
    | Look(w: Worker)
    | SpuriousWake(w: Worker)
    | JobDone(w: Worker)
    | Shutdown

  function AllWoken(ws: map<Worker, WorkerState>): map<Worker, WorkerState> {
    map w | w in ws :: if ws[w].Asleep? then Awake else ws[w]
  }

  predicate NobodyAsleep(ws: map<Worker, WorkerState>) { forall w <- ws :: !ws[w].Asleep? }

  predicate Full(s: State) { |s.jobQueue| >= s.maxQueueSize }

  predicate Enabled(s: State, step: Step) {
    match step
    case Enqueue(_) => true
    case Notify(w) => s.notifiers > 0 && w in s.workers && s.workers[w].Asleep?
    case NotifyNobody => s.notifiers > 0 && NobodyAsleep(s.workers)
    case Look(w) => w in s.workers && s.workers[w].Awake?
    case SpuriousWake(w) => w in s.workers && s.workers[w].Asleep?
    case JobDone(w) => w in s.workers && s.workers[w].Busy?
    case Shutdown => true
  }

  /** `enqueue` refuses a job when the queue is full: its caller throws. */
  function Next(s: State, step: Step): State
    requires Enabled(s, step)
  {
    match step
    case Enqueue(j) => if Full(s) then s else s.(jobQueue := s.jobQueue + [j], notifiers := s.notifiers + 1, accepted := s.accepted + [j])
    case Notify(w) => s.(notifiers := s.notifiers - 1, workers := s.workers[w := Awake])
    case NotifyNobody => s.(notifiers := s.notifiers - 1)
    case Look(w) => Looks(s, w)
    case SpuriousWake(w) => s.(workers := s.workers[w := Awake])
    case JobDone(w) => s.(workers := s.workers[w := Awake], finished := s.finished + multiset{s.workers[w].job})
    case Shutdown => s.(shutdown := true, workers := AllWoken(s.workers))
  }

  /** A worker holding the lock: return, go to sleep, or take the oldest job. */
  function Looks(s: State, w: Worker): State
    requires w in s.workers
  {
    if s.jobQueue == [] then s.(workers := s.workers[w := if s.shutdown then Returned else Asleep])
    else s.(jobQueue := s.jobQueue[1..], started := s.started + [s.jobQueue[0]], workers := s.workers[w := Busy(s.jobQueue[0])])
  }

  function Initial(workers: set<Worker>, maxQueueSize: nat): State {
    State([], maxQueueSize, false, map w | w in workers :: Awake, 0, [], [], multiset{})
  }

  predicate AllReturned(s: State) { forall w <- s.workers :: s.workers[w].Returned? }

  predicate SomebodyUp(s: State) { exists w <- s.workers :: s.workers[w].Awake? || s.workers[w].Busy? }

  /** Somebody will look at the queue. */
  predicate Attended(s: State) { SomebodyUp(s) || s.notifiers > 0 || AllReturned(s) }

  function Runners(ws: map<Worker, WorkerState>, j: Job): set<Worker> { set w | w in ws && ws[w] == Busy(j) }

  ghost predicate Inv(s: State) { Queueing(s) && RunOnce(s) }

  predicate Queueing(s: State) {
    && s.accepted == s.started + s.jobQueue
    && |s.jobQueue| <= s.maxQueueSize
    && (s.jobQueue != [] ==> Attended(s))
    && (s.shutdown ==> NobodyAsleep(s.workers))
    && (!s.shutdown ==> forall w <- s.workers :: !s.workers[w].Returned?)
  }

  /** A job has been finished as often as it has been started, but for those under way. */
  ghost predicate RunOnce(s: State) { forall j :: Balanced(s, j) }

  predicate Balanced(s: State, j: Job) { multiset(s.started)[j] == s.finished[j] + |Runners(s.workers, j)| }

  lemma RunnersChange(ws: map<Worker, WorkerState>, w: Worker, to: WorkerState, j: Job)
    requires w in ws
    ensures |Runners(ws[w := to], j)| == |Runners(ws, j)| - (if ws[w] == Busy(j) then 1 else 0) + (if to == Busy(j) then 1 else 0)
  {
    assert Runners(ws[w := to], j) == (Runners(ws, j) - {w}) + (if to == Busy(j) then {w} else {});
  }

  lemma BalancedKept(s: State, step: Step, j: Job)
    requires Balanced(s, j) && Enabled(s, step)
    ensures Balanced(Next(s, step), j)
  {
    match step
    case Notify(w) => RunnersChange(s.workers, w, Awake, j);
    case SpuriousWake(w) => RunnersChange(s.workers, w, Awake, j);
    case JobDone(w) => RunnersChange(s.workers, w, Awake, j);
    case Look(w) =>
      if s.jobQueue == [] {
        RunnersChange(s.workers, w, if s.shutdown then Returned else Asleep, j);
      } else {
        RunnersChange(s.workers, w, Busy(s.jobQueue[0]), j);
      }
    case Shutdown => assert Runners(AllWoken(s.workers), j) == Runners(s.workers, j);
    case _ =>
  }

  lemma AttendedKept(s: State, step: Step)
    requires Queueing(s) && Enabled(s, step) && Next(s, step).jobQueue != []
    ensures Attended(Next(s, step))
  {
    var t := Next(s, step);
    match step
    case Enqueue(_) =>
    case Notify(w) => assert t.workers[w].Awake?;
    case SpuriousWake(w) => assert t.workers[w].Awake?;
    case JobDone(w) => assert t.workers[w].Awake?;
    case Look(w) => assert t.workers[w].Busy?;
    case NotifyNobody =>
      if w :| w in s.workers && !s.workers[w].Returned? {
        assert s.workers[w].Awake? || s.workers[w].Busy?;
      }
    case Shutdown =>
      if SomebodyUp(s) {
        var w :| w in s.workers && (s.workers[w].Awake? || s.workers[w].Busy?);
        assert w in t.workers && t.workers[w] == s.workers[w];
      }
  }

  lemma QueueingKept(s: State, step: Step)
    requires Queueing(s) && Enabled(s, step)
    ensures Queueing(Next(s, step))
  {
    if Next(s, step).jobQueue != [] { AttendedKept(s, step); }
    if step.Look? && s.jobQueue != [] {
      assert s.jobQueue == [s.jobQueue[0]] + s.jobQueue[1..];
    }
  }

  lemma StepKeeps(s: State, step: Step)
    requires Inv(s) && Enabled(s, step)
    ensures Inv(Next(s, step))
  {
    QueueingKept(s, step);
    forall j ensures Balanced(Next(s, step), j) {
      BalancedKept(s, step, j);
    }
  }

  ghost predicate Trace(workers: set<Worker>, maxQueueSize: nat, states: seq<State>, steps: seq<Step>) {
    && |states| == |steps| + 1 && states[0] == Initial(workers, maxQueueSize)
    && forall i :: 0 <= i < |steps| ==> Enabled(states[i], steps[i]) && states[i + 1] == Next(states[i], steps[i])
  }

  lemma Shorter(workers: set<Worker>, maxQueueSize: nat, states: seq<State>, steps: seq<Step>)
    requires Trace(workers, maxQueueSize, states, steps) && steps != []
    ensures var n := |steps| - 1;
      && Trace(workers, maxQueueSize, states[..n + 1], steps[..n])
      && Enabled(states[n], steps[n]) && states[n + 1] == Next(states[n], steps[n])
  {
    var n := |steps| - 1;
    assert forall i :: 0 <= i < n ==> steps[..n][i] == steps[i] && states[..n + 1][i] == states[i];
  }

  /**
   * In every interleaving: accepted jobs are started once each, in the order of acceptance; the queue stays within
   * its bound; and while a job is queued a worker is up or a wake-up is on its way, unless the pool was shut down.
   */
  lemma {:induction false} EveryRun(workers: set<Worker>, maxQueueSize: nat, states: seq<State>, steps: seq<Step>)
    requires Trace(workers, maxQueueSize, states, steps)
    ensures var s := states[|steps|];
      && Inv(s) && s.workers.Keys == workers
      && (s.jobQueue != [] && !s.shutdown && workers != {} ==> SomebodyUp(s) || s.notifiers > 0)
  {
    if steps == [] {
      forall j ensures Balanced(states[0], j) {
        assert Runners(states[0].workers, j) == {};
      }
    } else {
      var n := |steps| - 1;
      Shorter(workers, maxQueueSize, states, steps);
      EveryRun(workers, maxQueueSize, states[..n + 1], steps[..n]);
      StepKeeps(states[n], steps[n]);
    }
    var s := states[|steps|];
    if workers != {} {
      var w :| w in workers;
      assert w in s.workers;
    }
  }

  /** What was accepted only grows at its end, and so does what was started. */
  lemma {:induction false} Grows(workers: set<Worker>, maxQueueSize: nat, states: seq<State>, steps: seq<Step>, i: nat)
    requires Trace(workers, maxQueueSize, states, steps) && i <= |steps|
    ensures states[i].accepted <= states[|steps|].accepted && states[i].started <= states[|steps|].started
  {
    if i < |steps| {
      var n := |steps| - 1;
      Shorter(workers, maxQueueSize, states, steps);
      Grows(workers, maxQueueSize, states[..n + 1], steps[..n], i);
    }
  }

  /**
   * Shutting down loses nothing: when the last worker has returned, every job accepted while some worker had not has
   * been run to its end, exactly as often as it was accepted.
   */
  lemma {:induction false} ShutdownRunsEverything(workers: set<Worker>, maxQueueSize: nat, states: seq<State>, steps: seq<Step>, i: nat)
    requires Trace(workers, maxQueueSize, states, steps) && i <= |steps|
    requires !AllReturned(states[i]) && AllReturned(states[|steps|])
    ensures states[i].accepted <= states[|steps|].started
    ensures states[|steps|].finished == multiset(states[|steps|].started)
  {
    var n := |steps| - 1;
    Shorter(workers, maxQueueSize, states, steps);
    EveryRun(workers, maxQueueSize, states[..n + 1], steps[..n]);
    EveryRun(workers, maxQueueSize, states, steps);
    if AllReturned(states[n]) {
      ShutdownRunsEverything(workers, maxQueueSize, states[..n + 1], steps[..n], i);
    } else {
      Grows(workers, maxQueueSize, states[..n + 1], steps[..n], i);
      LastReturns(states[n], steps[n]);
    }
    NobodyRuns(states[|steps|]);
  }

  lemma LastReturns(s: State, step: Step)
    requires Queueing(s) && Enabled(s, step) && !AllReturned(s) && AllReturned(Next(s, step))
    ensures s.jobQueue == [] && Next(s, step).started == s.accepted
  {
    var w :| w in s.workers && !s.workers[w].Returned?;
    assert w in Next(s, step).workers;
    assert step.Look?;
  }

  lemma NobodyRuns(s: State)
    requires RunOnce(s) && AllReturned(s)
    ensures s.finished == multiset(s.started)
  {
    forall j ensures s.finished[j] == multiset(s.started)[j] {
      assert Balanced(s, j) && Runners(s.workers, j) == {};
    }
  }
}
