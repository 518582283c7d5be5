/**
 * The completion handshake between a thread-pool worker in `runJob` and the coroutine that awaits the job: every
 * access to the shared state is one atomic step.
 */
module PoolJob {
  import opened Wrappers

  datatype Outcome = Value(v: int) | Exception(e: int)

  /** `runJob`: before the callable returns, before `done`, before the exchange, at the end. */
  datatype Worker = Running | Stored | Flagged | Finished

  /** `co_await`: not yet, told not ready, `caller` set, suspended for good, going on without suspending. */
  datatype Caller = NotAwaiting | NotReady | CallerSet | Suspended | ContinuedInline

  datatype PoolJobState = PoolJobState(
    outcome: Option<Outcome>,
    caller: bool,
    executor: bool,
    done: bool,
    callerSetOrJobComplete: bool)

  /** `posts` holds, for each call of `post`, what the coroutine will find when it resumes. */
  datatype State = State(job: PoolJobState, worker: Worker, awaiter: Caller, posts: seq<Option<Outcome>>)

  datatype Step =
    | CallableEnds(outcome: Outcome)
    | SetDone
    | ExchangeByWorker
    | AwaitReady
    | SetCaller
    | ExchangeByAwaiter

  predicate Enabled(s: State, step: Step) {
    match step
    case CallableEnds(_) => s.worker.Running?
    case SetDone => s.worker.Stored?
    case ExchangeByWorker => s.worker.Flagged?
    case AwaitReady => s.awaiter.NotAwaiting? && s.job.executor
    case SetCaller => s.awaiter.NotReady?
    case ExchangeByAwaiter => s.awaiter.CallerSet?
  }

  function Next(s: State, step: Step): State
    requires Enabled(s, step)
  {
    match step
    case CallableEnds(o) => s.(job := s.job.(outcome := Some(o)), worker := Stored)
    case SetDone => s.(job := s.job.(done := true), worker := Flagged)
    case ExchangeByWorker =>
      if !s.job.executor then s.(worker := Finished)
      else
        var t := s.(job := s.job.(callerSetOrJobComplete := true), worker := Finished);
        if s.job.callerSetOrJobComplete then t.(posts := s.posts + [s.job.outcome]) else t
    case AwaitReady => s.(awaiter := if s.job.done then ContinuedInline else NotReady)
    case SetCaller => s.(job := s.job.(caller := true), awaiter := CallerSet)
    case ExchangeByAwaiter =>
      var t := s.(job := s.job.(callerSetOrJobComplete := true), awaiter := Suspended);
      if s.job.callerSetOrJobComplete then t.(posts := s.posts + [s.job.outcome]) else t
  }

  /** `submit` records the executor of the calling thread; `fireAndForget` leaves it out and returns nothing to await. */
  function Initial(executor: bool): State {
    State(PoolJobState(None, false, executor, false, false), Running, NotAwaiting, [])
  }

  ghost predicate Trace(executor: bool, states: seq<State>, steps: seq<Step>) {
    && |states| == |steps| + 1 && states[0] == Initial(executor)
    && forall i :: 0 <= i < |steps| ==> Enabled(states[i], steps[i]) && states[i + 1] == Next(states[i], steps[i])
  }

  /** How often the awaiting coroutine goes on: at once, or when the executor resumes what was posted. */
  function Continuations(s: State): nat { (if s.awaiter.ContinuedInline? then 1 else 0) + |s.posts| }

  predicate Inv(s: State) {
    && (s.job.outcome.Some? <==> !s.worker.Running?)
    && (s.job.done <==> s.worker.Flagged? || s.worker.Finished?)
    && (s.job.caller <==> s.awaiter.CallerSet? || s.awaiter.Suspended?)
    && (s.awaiter.NotAwaiting? || s.job.executor)
    && (s.job.callerSetOrJobComplete <==> s.awaiter.Suspended? || (s.worker.Finished? && s.job.executor))
    && |s.posts| == (if s.awaiter.Suspended? && s.worker.Finished? then 1 else 0)
    && (s.awaiter.ContinuedInline? ==> s.job.done)
    && (forall i :: 0 <= i < |s.posts| ==> s.posts[i].Some? && s.posts[i] == s.job.outcome)
  }

  lemma StepKeeps(s: State, step: Step)
    requires Inv(s) && Enabled(s, step)
    ensures Inv(Next(s, step))
  {}

  /**
   * Over every interleaving of `runJob` with one `co_await`: the coroutine goes on at most once, never before the
   * outcome is stored, and finds that outcome; a post names a caller. When both sides are through, it has gone on exactly once.
   * A job that nobody awaits posts nothing.
   */
  lemma {:induction false} ContinuesOnce(executor: bool, states: seq<State>, steps: seq<Step>)
    requires Trace(executor, states, steps)
    ensures var s := states[|steps|];
      && Inv(s) && s.job.executor == executor
      && Continuations(s) <= 1
      && (Continuations(s) == 1 ==> s.job.outcome.Some? && forall i :: 0 <= i < |s.posts| ==> s.posts[i] == s.job.outcome)
      && (s.posts != [] ==> s.job.caller && s.job.executor)
      && (s.worker.Finished? && (s.awaiter.Suspended? || s.awaiter.ContinuedInline?) ==> Continuations(s) == 1)
      && (s.awaiter.NotAwaiting? ==> Continuations(s) == 0)
  {
    if steps != [] {
      var n := |steps| - 1;
      assert forall i :: 0 <= i < n ==> steps[..n][i] == steps[i] && states[..n + 1][i] == states[i];
      ContinuesOnce(executor, states[..n + 1], steps[..n]);
      StepKeeps(states[n], steps[n]);
    }
  }

  /** Neither side ever waits for the other: while one of them is not through, it has a step. */
  function StepsLeft(s: State): nat {
    (match s.worker case Running => 3 case Stored => 2 case Flagged => 1 case Finished => 0)
    + (match s.awaiter case NotAwaiting => 3 case NotReady => 2 case CallerSet => 1 case Suspended => 0 case ContinuedInline => 0)
  }

  lemma BothSidesFinish(s: State)
    requires Inv(s)
    ensures !s.worker.Finished? ==> exists step :: Enabled(s, step) && (step.CallableEnds? || step.SetDone? || step.ExchangeByWorker?)
    ensures s.awaiter.NotReady? || s.awaiter.CallerSet? ==> exists step :: Enabled(s, step) && (step.SetCaller? || step.ExchangeByAwaiter?)
    ensures forall step :: Enabled(s, step) ==> StepsLeft(Next(s, step)) < StepsLeft(s)
  {
    assert s.worker.Running? ==> Enabled(s, CallableEnds(Value(0)));
    assert s.worker.Stored? ==> Enabled(s, SetDone);
    assert s.worker.Flagged? ==> Enabled(s, ExchangeByWorker);
    assert s.awaiter.NotReady? ==> Enabled(s, SetCaller);
    assert s.awaiter.CallerSet? ==> Enabled(s, ExchangeByAwaiter);
  }
}
