/**
 * `Executor::post` from any number of threads against the event loop: the queue under its mutex, the eventfd
 * counter, and the edge-triggered epoll registration, one atomic step at a time.
 */
module PostWake {
  type Handle = nat
  type Thread = nat

  const MAX_COUNTER := 0xffff_ffff_ffff_fffe

  /** Where the event loop is: before `epoll_wait` returns the eventfd, before it reads it, before it takes the lock. */
  datatype Phase = Idle | GotEvent | Consumed

  datatype State = State(
    queue: seq<Handle>,
    ready: seq<Handle>,
    /** Threads that have pushed and not yet written. */
    between: set<Thread>,
    counter: nat,
    edge: bool,
    phase: Phase,
    posted: seq<Handle>)

  datatype Step =
    | Push(thread: Thread, h: Handle)
    | Write(thread: Thread)
    | EpollWait
    | ReadCounter
    | Drain

  predicate Enabled(s: State, step: Step) {
    match step
    case Push(t, _) => t !in s.between
    case Write(t) => t in s.between
    case EpollWait => s.phase.Idle?
    case ReadCounter => s.phase.GotEvent?
    case Drain => s.phase.Consumed?
  }

  /**
   * A write that would overflow the counter fails and changes nothing. An edge is reported only while the counter
   * is not zero, and is used up either way.
   */
  function Next(s: State, step: Step): State
    requires Enabled(s, step)
  {
    match step
    case Push(t, h) => s.(queue := s.queue + [h], between := s.between + {t}, posted := s.posted + [h])
    case Write(t) =>
      var w := s.(between := s.between - {t});
      if s.counter == MAX_COUNTER then w else w.(counter := s.counter + 1, edge := true)
    case EpollWait => if s.edge && s.counter > 0 then s.(edge := false, phase := GotEvent) else s.(edge := false)
    case ReadCounter => s.(counter := 0, phase := Consumed)
    case Drain => s.(ready := s.ready + s.queue, queue := [], phase := Idle)
  }

  function Initial(): State { State([], [], {}, 0, false, Idle, []) }

  /** The loop will hear of the queue: from a thread about to write, from an edge, or because it is on its way. */
  predicate WakeComing(s: State) {
    s.between != {} || (s.edge && s.counter > 0) || !s.phase.Idle?
  }

  predicate Inv(s: State) {
    && (s.queue != [] ==> WakeComing(s))
    && (s.counter > 0 && !s.phase.GotEvent? ==> s.edge)
    && s.posted == s.ready + s.queue
    && s.counter <= MAX_COUNTER
  }

  ghost predicate Trace(states: seq<State>, steps: seq<Step>) {
    && |states| == |steps| + 1 && states[0] == Initial()
    && forall i :: 0 <= i < |steps| ==> Enabled(states[i], steps[i]) && states[i + 1] == Next(states[i], steps[i])
  }

  lemma StepKeeps(s: State, step: Step)
    requires Inv(s) && Enabled(s, step)
    ensures Inv(Next(s, step))
  {
    var t := Next(s, step);
    match step
    case Drain => assert t.posted == t.ready + t.queue;
    case Push(_, h) => assert s.ready + s.queue + [h] == s.ready + (s.queue + [h]);
    case _ =>
  }

  /**
   * In every interleaving: posted coroutines have moved to the ready queue in the order they were posted, each once,
   * and those that have not are never stranded.
   */
  lemma {:induction false} NeverStranded(states: seq<State>, steps: seq<Step>)
    requires Trace(states, steps)
    ensures var s := states[|steps|];
      Inv(s) && s.posted == s.ready + s.queue && (s.queue != [] ==> WakeComing(s))
  {
    if steps != [] {
      var n := |steps| - 1;
      assert forall i :: 0 <= i < n ==> steps[..n][i] == steps[i] && states[..n + 1][i] == states[i];
      NeverStranded(states[..n + 1], steps[..n]);
      StepKeeps(states[n], steps[n]);
    }
  }

  /** The loop's next steps, with the other threads silent. */
  function LoopOnce(s: State): State {
    if s.phase.Idle? then Next(s, EpollWait) else if s.phase.GotEvent? then Next(s, ReadCounter) else Next(s, Drain)
  }

  function LoopTimes(s: State, n: nat): State
    decreases n
  {
    if n == 0 then s else LoopTimes(LoopOnce(s), n - 1)
  }

  /** Once the posting threads have finished their writes, the loop by itself delivers everything within three steps. */
  lemma LoopDelivers(s: State)
    requires Inv(s) && s.between == {}
    ensures exists n: nat :: n <= 3 && LoopTimes(s, n).queue == [] && LoopTimes(s, n).ready == s.posted
  {
    if s.queue == [] {
      assert LoopTimes(s, 0).ready == s.posted;
    } else {
      var n := if s.phase.Idle? then 3 else if s.phase.GotEvent? then 2 else 1;
      var a := LoopOnce(s);
      var b := LoopOnce(a);
      assert LoopTimes(s, 1) == LoopTimes(a, 0) == a;
      assert LoopTimes(s, 2) == LoopTimes(a, 1) == LoopTimes(b, 0) == b;
      assert LoopTimes(s, 3) == LoopTimes(a, 2) == LoopTimes(b, 1) == LoopTimes(LoopOnce(b), 0) == LoopOnce(b);
      assert LoopTimes(s, n).queue == [] && LoopTimes(s, n).ready == s.posted;
    }
  }
}
