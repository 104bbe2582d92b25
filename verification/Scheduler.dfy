/** The counters and queue that decide when background garbage collection runs. */
module Scheduler {

  datatype Config = Config(maxBackgroundGc: int, disabled: bool)

  /** Everything the scheduling code keeps under the DB mutex. */
  datatype Counters = Counters(
    queue: seq<nat>,       // gc_queue_: column families waiting for a collection
    unscheduled: int,
    scheduled: int,
    running: int,
    drops: int,            // drop_cf_requests_
    shuttingDown: bool)

  function Enqueue(c: Counters, cf: nat): Counters {
    c.(queue := c.queue + [cf], unscheduled := c.unscheduled + 1)
  }

  function Min(a: int, b: int): int { if a <= b then a else b }

  /** How many background jobs the scheduling loop hands to the thread pool. */
  function Launches(cfg: Config, c: Counters): nat {
    var n := Min(c.unscheduled, cfg.maxBackgroundGc - c.scheduled);
    if cfg.disabled || c.shuttingDown || n < 0 then 0 else n
  }

  function MaybeSchedule(cfg: Config, c: Counters): Counters {
    var n := Launches(cfg, c);
    c.(unscheduled := c.unscheduled - n, scheduled := c.scheduled + n)
  }

  /** A collection enters its critical section and takes the first queue entry, if any. */
  function BeginGc(c: Counters): Counters {
    c.(running := c.running + 1, queue := if c.queue == [] then [] else c.queue[1..])
  }

  function LeaveGc(c: Counters): Counters {
    c.(running := c.running - 1, scheduled := c.scheduled - 1)
  }

  /** The end of BackgroundCallGC. */
  function EndGc(cfg: Config, c: Counters): Counters {
    MaybeSchedule(cfg, LeaveGc(c))
  }

  predicate EndSignals(cfg: Config, c: Counters) {
    var d := EndGc(cfg, c);
    d.scheduled == 0 || d.running == 0
  }

  class GcState {
    const cfg: Config
    var queue: seq<nat>
    var unscheduled: int
    var scheduled: int
    var running: int
    var drops: int
    var shuttingDown: bool

    constructor (cfg: Config)
      ensures this.cfg == cfg && View() == Counters([], 0, 0, 0, 0, false)
    {
      this.cfg := cfg;
      queue, unscheduled, scheduled, running, drops, shuttingDown := [], 0, 0, 0, 0, false;
    }

    ghost function View(): Counters
      reads this
    {
      Counters(queue, unscheduled, scheduled, running, drops, shuttingDown)
    }

    method AddToGCQueue(cf: nat)
      modifies this
      ensures View() == Enqueue(old(View()), cf)
    {
      unscheduled := unscheduled + 1;
      queue := queue + [cf];
    }

    method PopFirstFromGCQueue() returns (cf: nat)
      requires queue != []
      modifies this`queue
      ensures cf == old(queue)[0] && queue == old(queue)[1..]
    {
      cf := queue[0];
      queue := queue[1..];
    }

    method MaybeScheduleGC() returns (launched: nat)
      modifies this`unscheduled, this`scheduled
      ensures launched == Launches(cfg, old(View()))
      ensures View() == MaybeSchedule(cfg, old(View()))
    {
      launched := 0;
      if cfg.disabled || shuttingDown { return; }
      while unscheduled > 0 && scheduled < cfg.maxBackgroundGc
        invariant unscheduled == old(unscheduled) - launched && scheduled == old(scheduled) + launched
        invariant launched > 0 ==> unscheduled >= 0 && scheduled <= cfg.maxBackgroundGc
        decreases unscheduled
      {
        unscheduled := unscheduled - 1;
        scheduled := scheduled + 1;
        launched := launched + 1;
      }
    }

    /** The first part of BackgroundCallGC, past the wait for pending drops. */
    method Begin() returns (cf: nat, found: bool)
      modifies this`queue, this`running
      ensures View() == BeginGc(old(View()))
      ensures found == (old(queue) != []) && (found ==> cf == old(queue)[0])
    {
      running := running + 1;
      cf, found := 0, queue != [];
      if found { cf := PopFirstFromGCQueue(); }
    }

    /** The last part of BackgroundCallGC. */
    method End() returns (launched: nat, signal: bool)
      modifies this`running, this`scheduled, this`unscheduled
      ensures View() == EndGc(cfg, old(View())) && signal == EndSignals(cfg, old(View()))
      ensures launched == Launches(cfg, LeaveGc(old(View())))
    {
      running := running - 1;
      scheduled := scheduled - 1;
      launched := MaybeScheduleGC();
      signal := scheduled == 0 || running == 0;
    }
  }
}

/** The protocol between background collections, column family drops and closing the DB. */
module SchedulerProtocol {
  import opened Scheduler

  datatype Closer =
    | Open
    | Flagged               // shuting_down_ is set
    | Unscheduled(n: nat)   // the pool gave back n jobs; the counter still includes them
    | CloseAsleep           // waiting on the condition variable
    | CloseWoken            // signalled, not running yet
    | Closed

  /** Threads are anonymous, so counting them per program point loses nothing. */
  datatype State = State(
    c: Counters,
    pool: nat,              // jobs in the thread pool, not started
    arrived: nat,           // started, waiting for the mutex
    gcAsleep: nat,          // waiting on the condition variable while drops are pending
    gcWoken: nat,
    working: nat,           // between running++ and running--
    dropAsleep: nat,        // waiting on the condition variable while collections run
    dropWoken: nat,
    dropping: nat,          // between the wait and the decrement
    leaked: nat,            // requests whose base drop failed: the counter is never decremented
    removed: nat,           // jobs taken back from the pool at shutdown
    closer: Closer)

  predicate Initial(s: State) {
    && s.c.queue == [] && s.c.unscheduled == 0 && s.c.scheduled == 0 && s.c.running == 0 && s.c.drops == 0
    && !s.c.shuttingDown && s.closer == Open && s.removed == 0
    && s.pool == 0 && s.arrived == 0 && s.gcAsleep == 0 && s.gcWoken == 0 && s.working == 0
    && s.dropAsleep == 0 && s.dropWoken == 0 && s.dropping == 0 && s.leaked == 0
  }

  datatype Step =
    | Trigger(cf: nat)      // OnCompactionCompleted queues a column family
    | PoolStart
    | GcEnter
    | GcWake
    | GcSpurious            // a wake-up nobody asked for
    | GcRequeue(cf: nat)    // a running collection queues its column family again
    | GcEnd
    | DropBegin
    | DropWake
    | DropSpurious
    | DropDone
    | DropFailed
    | CloseFlag
    | CloseUnschedule
    | CloseLock
    | CloseWake
    | CloseSpurious

  function SignalAll(s: State): State {
    s.(gcAsleep := 0, gcWoken := s.gcWoken + s.gcAsleep,
       dropAsleep := 0, dropWoken := s.dropWoken + s.dropAsleep,
       closer := if s.closer == CloseAsleep then CloseWoken else s.closer)
  }

  function Schedule(cfg: Config, s: State): State {
    s.(c := MaybeSchedule(cfg, s.c), pool := s.pool + Launches(cfg, s.c))
  }

  /** A worker that is past its wait: it runs a collection, or has nothing to do and ends at once. */
  function StartWork(cfg: Config, s: State): State {
    var t := s.(c := BeginGc(s.c), working := s.working + 1);
    if s.c.queue == [] then FinishWork(cfg, t) else t
  }

  function FinishWork(cfg: Config, s: State): State
    requires s.working > 0
  {
    var t := s.(c := EndGc(cfg, s.c), pool := s.pool + Launches(cfg, LeaveGc(s.c)), working := s.working - 1);
    if EndSignals(cfg, s.c) then SignalAll(t) else t
  }

  function EnterOrSleep(cfg: Config, s: State): State {
    if s.c.drops > 0 then s.(gcAsleep := s.gcAsleep + 1) else StartWork(cfg, s)
  }

  function DropOrSleep(s: State): State {
    if s.c.running > 0 then s.(dropAsleep := s.dropAsleep + 1) else s.(dropping := s.dropping + 1)
  }

  function CloseOrSleep(s: State): State {
    s.(closer := if s.c.scheduled > 0 then CloseAsleep else Closed)
  }

  predicate Enabled(s: State, step: Step) {
    match step
    case Trigger(_) => true
    case PoolStart => s.pool > 0
    case GcEnter => s.arrived > 0
    case GcWake => s.gcWoken > 0
    case GcSpurious => s.gcAsleep > 0
    case GcRequeue(_) => s.working > 0
    case GcEnd => s.working > 0
    case DropBegin => true
    case DropWake => s.dropWoken > 0
    case DropSpurious => s.dropAsleep > 0
    case DropDone => s.dropping > 0
    case DropFailed => s.dropping > 0
    case CloseFlag => s.closer == Open
    case CloseUnschedule => s.closer == Flagged
    case CloseLock => s.closer.Unscheduled?
    case CloseWake => s.closer == CloseWoken
    case CloseSpurious => s.closer == CloseAsleep
  }

  function Apply(cfg: Config, s: State, step: Step): State
    requires Enabled(s, step)
  {
    match step
    case Trigger(cf) => Schedule(cfg, s.(c := Enqueue(s.c, cf)))
    case PoolStart => s.(pool := s.pool - 1, arrived := s.arrived + 1)
    case GcEnter => EnterOrSleep(cfg, s.(arrived := s.arrived - 1))
    case GcWake => EnterOrSleep(cfg, s.(gcWoken := s.gcWoken - 1))
    case GcSpurious => EnterOrSleep(cfg, s.(gcAsleep := s.gcAsleep - 1))
    case GcRequeue(cf) => s.(c := Enqueue(s.c, cf))
    case GcEnd => FinishWork(cfg, s)
    case DropBegin => DropOrSleep(s.(c := s.c.(drops := s.c.drops + 1)))
    case DropWake => DropOrSleep(s.(dropWoken := s.dropWoken - 1))
    case DropSpurious => DropOrSleep(s.(dropAsleep := s.dropAsleep - 1))
    case DropDone =>
      var t := s.(c := s.c.(drops := s.c.drops - 1), dropping := s.dropping - 1);
      if t.c.drops == 0 then SignalAll(t) else t
    case DropFailed => s.(dropping := s.dropping - 1, leaked := s.leaked + 1)
    case CloseFlag => s.(c := s.c.(shuttingDown := true), closer := Flagged)
    case CloseUnschedule => s.(pool := 0, removed := s.removed + s.pool, closer := Unscheduled(s.pool))
    case CloseLock => CloseOrSleep(s.(c := s.c.(scheduled := s.c.scheduled - s.closer.n)))
    case CloseWake => CloseOrSleep(s)
    case CloseSpurious => CloseOrSleep(s)
  }

  predicate Legal(cfg: Config, s: State, steps: seq<Step>)
    decreases |steps|
  {
    steps == [] || (Enabled(s, steps[0]) && Legal(cfg, Apply(cfg, s, steps[0]), steps[1..]))
  }

  function Run(cfg: Config, s: State, steps: seq<Step>): State
    requires Legal(cfg, s, steps)
    decreases |steps|
  {
    if steps == [] then s else Run(cfg, Apply(cfg, s, steps[0]), steps[1..])
  }

  // ---- the invariant ----

  /** Jobs taken from the pool that have not entered their critical section. */
  function Stuck(s: State): nat {
    s.arrived + s.gcAsleep + s.gcWoken
  }

  predicate CountersMatchThreads(s: State) {
    && s.c.running == s.working
    && s.c.scheduled == s.pool + Stuck(s) + s.working + (if s.closer.Unscheduled? then s.closer.n else 0)
    && s.c.drops == s.dropAsleep + s.dropWoken + s.dropping + s.leaked
    && s.c.unscheduled >= 0
    && |s.c.queue| == s.c.unscheduled + s.pool + Stuck(s) + s.removed
  }

  predicate Bounded(cfg: Config, s: State) {
    0 <= s.c.running <= s.c.scheduled && (s.c.scheduled > 0 ==> s.c.scheduled <= cfg.maxBackgroundGc)
  }

  /** While a drop is past its wait, or its request leaked, nothing is collected. */
  predicate DropsExclude(s: State) {
    s.dropping > 0 || s.leaked > 0 ==> s.c.running == 0
  }

  /** A waiter nobody has signalled still has a reason to wait. */
  predicate NoLostWakeup(s: State) {
    && (s.gcAsleep > 0 ==> s.c.drops > 0)
    && (s.dropAsleep > 0 ==> s.c.running > 0)
    && (s.closer.CloseAsleep? ==> s.c.scheduled > 0)
  }

  predicate ClosingStages(s: State) {
    && (s.c.shuttingDown <==> !s.closer.Open?)
    && (if s.closer.Open? || s.closer.Flagged? then s.removed == 0 else s.pool == 0)
    && (s.closer.Closed? ==> s.c.scheduled == 0)
  }

  predicate NotStranded(cfg: Config, s: State) {
    !cfg.disabled && cfg.maxBackgroundGc > 0 && !s.c.shuttingDown && s.c.unscheduled > 0 ==> s.c.scheduled > 0
  }

  predicate Inv(cfg: Config, s: State) {
    && CountersMatchThreads(s) && Bounded(cfg, s) && DropsExclude(s)
    && NoLostWakeup(s) && ClosingStages(s) && NotStranded(cfg, s)
  }

  lemma FinishKeepsInv(cfg: Config, s: State)
    requires Inv(cfg, s) && s.working > 0
    ensures Inv(cfg, FinishWork(cfg, s))
  {}

  lemma EnterKeepsInv(cfg: Config, s: State, step: Step)
    requires Inv(cfg, s) && Enabled(s, step) && (step.GcEnter? || step.GcWake? || step.GcSpurious?)
    ensures Inv(cfg, Apply(cfg, s, step))
  {
    assert s.c.queue != [];
  }

  lemma QueueStepKeepsInv(cfg: Config, s: State, step: Step)
    requires Inv(cfg, s) && Enabled(s, step) && (step.Trigger? || step.PoolStart? || step.GcRequeue?)
    ensures Inv(cfg, Apply(cfg, s, step))
  {}

  lemma DropStepKeepsInv(cfg: Config, s: State, step: Step)
    requires Inv(cfg, s) && Enabled(s, step)
    requires step.DropBegin? || step.DropWake? || step.DropSpurious? || step.DropDone? || step.DropFailed?
    ensures Inv(cfg, Apply(cfg, s, step))
  {}

  lemma CloseStepKeepsInv(cfg: Config, s: State, step: Step)
    requires Inv(cfg, s) && Enabled(s, step)
    requires step.CloseFlag? || step.CloseUnschedule? || step.CloseLock? || step.CloseWake? || step.CloseSpurious?
    ensures Inv(cfg, Apply(cfg, s, step))
  {}

  lemma StepKeepsInv(cfg: Config, s: State, step: Step)
    requires Inv(cfg, s) && Enabled(s, step)
    ensures Inv(cfg, Apply(cfg, s, step))
  {
    match step
    case Trigger(_) | PoolStart | GcRequeue(_) => QueueStepKeepsInv(cfg, s, step);
    case GcEnter | GcWake | GcSpurious => EnterKeepsInv(cfg, s, step);
    case GcEnd => FinishKeepsInv(cfg, s);
    case DropBegin | DropWake | DropSpurious | DropDone | DropFailed => DropStepKeepsInv(cfg, s, step);
    case CloseFlag | CloseUnschedule | CloseLock | CloseWake | CloseSpurious => CloseStepKeepsInv(cfg, s, step);
  }

  lemma {:induction false} RunKeepsInv(cfg: Config, s: State, steps: seq<Step>)
    requires Inv(cfg, s) && Legal(cfg, s, steps)
    ensures Inv(cfg, Run(cfg, s, steps))
    decreases |steps|
  {
    if steps != [] {
      StepKeepsInv(cfg, s, steps[0]);
      RunKeepsInv(cfg, Apply(cfg, s, steps[0]), steps[1..]);
    }
  }

  lemma InitialHasInv(cfg: Config, s: State)
    requires Initial(s)
    ensures Inv(cfg, s)
  {}

  /** The counters are bounded, the queue is accounted for, queued work is not stranded, a collection never
      runs beside a drop, no wake-up is lost, and a closed DB has nothing scheduled or running. */
  predicate Safe(cfg: Config, s: State) {
    && Bounded(cfg, s) && NotStranded(cfg, s) && DropsExclude(s) && NoLostWakeup(s)
    && (!s.c.shuttingDown ==> |s.c.queue| == s.c.unscheduled + s.c.scheduled - s.c.running)
    && (Stuck(s) > 0 ==> s.c.queue != [])
    && (s.closer.Closed? ==> s.pool == 0 && Stuck(s) == 0 && s.working == 0)
  }

  lemma InvIsSafe(cfg: Config, s: State)
    requires Inv(cfg, s)
    ensures Safe(cfg, s)
  {}

  lemma SchedulingIsSafe(cfg: Config, start: State, steps: seq<Step>)
    requires Initial(start) && Legal(cfg, start, steps)
    ensures Safe(cfg, Run(cfg, start, steps))
  {
    InitialHasInv(cfg, start);
    RunKeepsInv(cfg, start, steps);
    InvIsSafe(cfg, Run(cfg, start, steps));
  }

  /** With background collection off, or a limit that allows no job, queued work stays queued for ever. */
  lemma NothingRunsWhenDisabled(cfg: Config, start: State, steps: seq<Step>)
    requires cfg.disabled || cfg.maxBackgroundGc <= 0
    requires Inv(cfg, start) && start.c.scheduled == 0 && start.removed == 0 && Legal(cfg, start, steps)
    ensures var s := Run(cfg, start, steps); s.working == 0 && |s.c.queue| == s.c.unscheduled
  {
    RunWhenDisabled(cfg, start, steps);
    RunKeepsInv(cfg, start, steps);
  }

  lemma {:induction false} RunWhenDisabled(cfg: Config, s: State, steps: seq<Step>)
    requires cfg.disabled || cfg.maxBackgroundGc <= 0
    requires Inv(cfg, s) && s.c.scheduled == 0 && s.removed == 0 && Legal(cfg, s, steps)
    ensures Run(cfg, s, steps).c.scheduled == 0 && Run(cfg, s, steps).removed == 0
    decreases |steps|
  {
    if steps != [] {
      StepKeepsInv(cfg, s, steps[0]);
      RunWhenDisabled(cfg, Apply(cfg, s, steps[0]), steps[1..]);
    }
  }

  // ---- a failed drop ----

  /** A leaked drop request is never given back, and no collection runs again. */
  lemma {:induction false} LeakStopsCollection(cfg: Config, s: State, steps: seq<Step>)
    requires Inv(cfg, s) && s.leaked > 0 && Legal(cfg, s, steps)
    ensures Run(cfg, s, steps).leaked >= s.leaked && Run(cfg, s, steps).working == 0
    decreases |steps|
  {
    if steps != [] {
      StepKeepsInv(cfg, s, steps[0]);
      LeakStopsCollection(cfg, Apply(cfg, s, steps[0]), steps[1..]);
    }
  }

  lemma {:induction false} LeakKeepsStuckJobs(cfg: Config, s: State, steps: seq<Step>)
    requires Inv(cfg, s) && s.leaked > 0 && Stuck(s) > 0 && Legal(cfg, s, steps)
    ensures Run(cfg, s, steps).closer != Closed
    decreases |steps|
  {
    if steps != [] {
      StepKeepsInv(cfg, s, steps[0]);
      LeakKeepsStuckJobs(cfg, Apply(cfg, s, steps[0]), steps[1..]);
    }
  }

  // ---- progress ----

  /** A run in which every wake-up was signalled. */
  predicate Signalled(steps: seq<Step>) {
    forall i :: 0 <= i < |steps| ==> !steps[i].GcSpurious? && !steps[i].DropSpurious? && !steps[i].CloseSpurious?
  }

  ghost predicate CanClose(cfg: Config, s: State) {
    exists steps :: Legal(cfg, s, steps) && Signalled(steps) && Run(cfg, s, steps).closer == Closed
  }

  lemma StepThenClose(cfg: Config, s: State, step: Step)
    requires Enabled(s, step) && !step.GcSpurious? && !step.DropSpurious? && !step.CloseSpurious?
    requires CanClose(cfg, Apply(cfg, s, step))
    ensures CanClose(cfg, s)
  {
    var rest :| Legal(cfg, Apply(cfg, s, step), rest) && Signalled(rest) && Run(cfg, Apply(cfg, s, step), rest).closer == Closed;
    var steps := [step] + rest;
    assert steps[1..] == rest;
    assert Legal(cfg, s, steps) && Run(cfg, s, steps).closer == Closed;
  }

  function CloserRank(s: State): nat {
    match s.closer
    case Open => 4
    case Flagged => 3
    case Unscheduled(_) => 2
    case CloseAsleep => 1
    case CloseWoken => 1
    case Closed => 0
  }

  /** Steps that the waiting threads still need, once the pool is empty. */
  function Work(s: State): nat {
    2 * Stuck(s) + s.working + 2 * (s.dropAsleep + s.dropWoken) + s.dropping
  }

  /** The next step towards an idle system: end collections, finish drops, let waiting jobs in. */
  function NextIdleStep(s: State): Step {
    if s.working > 0 then GcEnd
    else if s.dropWoken > 0 then DropWake
    else if s.dropping > 0 then DropDone
    else if s.arrived > 0 then GcEnter
    else GcWake
  }

  lemma IdleStepWorks(cfg: Config, s: State)
    requires Inv(cfg, s) && s.c.shuttingDown && (s.leaked == 0 || Stuck(s) == 0) && Work(s) > 0
    ensures Enabled(s, NextIdleStep(s))
    ensures var t := Apply(cfg, s, NextIdleStep(s));
            && Work(t) < Work(s) && CloserRank(t) == CloserRank(s) && t.leaked == s.leaked && Stuck(t) <= Stuck(s)
            && t.c.shuttingDown && (t.leaked == 0 || Stuck(t) == 0)
  {}

  function NextCloseStep(s: State): Step {
    match s.closer
    case Open => CloseFlag
    case Flagged => CloseUnschedule
    case Unscheduled(_) => CloseLock
    case _ => if Work(s) > 0 then NextIdleStep(s) else CloseWake
  }

  lemma CloseStepWorks(cfg: Config, s: State)
    requires Inv(cfg, s) && s.closer != Closed && (s.leaked == 0 || Stuck(s) == 0)
    ensures Enabled(s, NextCloseStep(s))
    ensures var t := Apply(cfg, s, NextCloseStep(s));
            && (t.leaked == 0 || Stuck(t) == 0)
            && (CloserRank(t) < CloserRank(s) || (CloserRank(t) == CloserRank(s) && Work(t) < Work(s)))
  {
    if (s.closer.CloseAsleep? || s.closer.CloseWoken?) && Work(s) > 0 { IdleStepWorks(cfg, s); }
  }

  /** From every state of the protocol the DB can close, relying only on signals that are sent,
      unless a drop has leaked its request while some job was already past the pool. */
  lemma {:induction false} CloseCompletes(cfg: Config, s: State)
    requires Inv(cfg, s) && (s.leaked == 0 || Stuck(s) == 0)
    ensures CanClose(cfg, s)
    decreases CloserRank(s), Work(s)
  {
    if s.closer == Closed {
      assert Legal(cfg, s, []) && Signalled([]) && Run(cfg, s, []).closer == Closed;
    } else {
      var step := NextCloseStep(s);
      CloseStepWorks(cfg, s);
      StepKeepsInv(cfg, s, step);
      CloseCompletes(cfg, Apply(cfg, s, step));
      StepThenClose(cfg, s, step);
    }
  }

  /** Closing can complete exactly when no leaked drop request holds back a job that left the pool. */
  lemma ClosesIff(cfg: Config, s: State)
    requires Inv(cfg, s)
    ensures CanClose(cfg, s) <==> s.leaked == 0 || Stuck(s) == 0
  {
    if s.leaked == 0 || Stuck(s) == 0 {
      CloseCompletes(cfg, s);
    } else if CanClose(cfg, s) {
      var steps :| Legal(cfg, s, steps) && Signalled(steps) && Run(cfg, s, steps).closer == Closed;
      LeakKeepsStuckJobs(cfg, s, steps);
    }
  }

  /** One queued job past the pool, then one drop that fails. */
  const LEAK: seq<Step> := [Trigger(0), PoolStart, DropBegin, DropFailed]

  lemma LeakRuns(cfg: Config, s: State, a: State, b: State, c: State)
    requires Initial(s) && !cfg.disabled && cfg.maxBackgroundGc > 0
    requires a == Apply(cfg, s, Trigger(0))
    requires a.pool > 0 && b == Apply(cfg, a, PoolStart)
    requires c == Apply(cfg, b, DropBegin)
    ensures c.dropping > 0 && Apply(cfg, c, DropFailed).leaked > 0 && Stuck(Apply(cfg, c, DropFailed)) > 0
  {}

  lemma FourSteps(cfg: Config, s: State, a: State, b: State, c: State, p: Step, q: Step, r: Step, u: Step)
    requires Enabled(s, p) && a == Apply(cfg, s, p) && Enabled(a, q) && b == Apply(cfg, a, q)
    requires Enabled(b, r) && c == Apply(cfg, b, r) && Enabled(c, u)
    ensures Legal(cfg, s, [p, q, r, u]) && Run(cfg, s, [p, q, r, u]) == Apply(cfg, c, u)
  {
    assert Legal(cfg, c, [u]) && Run(cfg, c, [u]) == Apply(cfg, c, u);
    assert [r, u][1..] == [u];
    assert Legal(cfg, b, [r, u]) && Run(cfg, b, [r, u]) == Apply(cfg, c, u);
    assert [q, r, u][1..] == [r, u];
    assert Legal(cfg, a, [q, r, u]) && Run(cfg, a, [q, r, u]) == Apply(cfg, c, u);
    assert [p, q, r, u][1..] == [q, r, u];
  }

  /** With collection enabled, a fresh DB gets into a state from which it can never close. */
  lemma LeakIsReached(cfg: Config, start: State)
    requires Initial(start) && !cfg.disabled && cfg.maxBackgroundGc > 0
    ensures Legal(cfg, start, LEAK)
    ensures var s := Run(cfg, start, LEAK); s.leaked > 0 && Stuck(s) > 0 && !CanClose(cfg, s)
  {
    var a := Apply(cfg, start, Trigger(0));
    var b := Apply(cfg, a, PoolStart);
    var c := Apply(cfg, b, DropBegin);
    LeakRuns(cfg, start, a, b, c);
    FourSteps(cfg, start, a, b, c, Trigger(0), PoolStart, DropBegin, DropFailed);
    InitialHasInv(cfg, start);
    RunKeepsInv(cfg, start, LEAK);
    ClosesIff(cfg, Run(cfg, start, LEAK));
  }

  ghost predicate CanDrain(cfg: Config, s: State) {
    exists steps :: Legal(cfg, s, steps) && Signalled(steps) && Run(cfg, s, steps).c.queue == []
  }

  lemma StepThenDrain(cfg: Config, s: State, step: Step)
    requires Enabled(s, step) && !step.GcSpurious? && !step.DropSpurious? && !step.CloseSpurious?
    requires CanDrain(cfg, Apply(cfg, s, step))
    ensures CanDrain(cfg, s)
  {
    var rest :| Legal(cfg, Apply(cfg, s, step), rest) && Signalled(rest) && Run(cfg, Apply(cfg, s, step), rest).c.queue == [];
    var steps := [step] + rest;
    assert steps[1..] == rest;
    assert Legal(cfg, s, steps) && Run(cfg, s, steps).c.queue == [];
  }

  function Backlog(s: State): int {
    4 * s.c.unscheduled + 3 * s.pool + Work(s)
  }

  function NextDrainStep(s: State): Step {
    if Work(s) > 0 then NextIdleStep(s) else PoolStart
  }

  lemma EndShrinksBacklog(cfg: Config, s: State)
    requires Inv(cfg, s) && s.working > 0
    ensures Backlog(FinishWork(cfg, s)) < Backlog(s)
  {}

  lemma DrainStepWorks(cfg: Config, s: State)
    requires Inv(cfg, s) && s.closer == Open && s.leaked == 0 && !cfg.disabled && cfg.maxBackgroundGc > 0 && s.c.queue != []
    ensures Enabled(s, NextDrainStep(s))
    ensures var t := Apply(cfg, s, NextDrainStep(s));
            0 <= Backlog(t) < Backlog(s) && t.closer == Open && t.leaked == 0
  {
    StepKeepsInv(cfg, s, NextDrainStep(s));
    if s.working > 0 { EndShrinksBacklog(cfg, s); }
  }

  /** Before shutdown, and with no leaked request, every queued collection can get its turn. */
  lemma {:induction false} QueueDrains(cfg: Config, s: State)
    requires Inv(cfg, s) && s.closer == Open && s.leaked == 0 && !cfg.disabled && cfg.maxBackgroundGc > 0
    ensures CanDrain(cfg, s)
    decreases Backlog(s)
  {
    if s.c.queue == [] {
      assert Legal(cfg, s, []) && Signalled([]) && Run(cfg, s, []).c.queue == [];
    } else {
      var step := NextDrainStep(s);
      DrainStepWorks(cfg, s);
      StepKeepsInv(cfg, s, step);
      QueueDrains(cfg, Apply(cfg, s, step));
      StepThenDrain(cfg, s, step);
    }
  }
}
