/** Left alone, the scheduler comes to rest: no run without new requests goes on for ever. */
module SchedulerProgress {
  import opened Scheduler
  import opened SchedulerProtocol

  /** Steps that bring no new request and no wake-up that nobody asked for. */
  predicate Calm(step: Step) {
    && !step.Trigger? && !step.GcRequeue? && !step.DropBegin?
    && !step.GcSpurious? && !step.DropSpurious? && !step.CloseSpurious?
  }

  predicate CalmRun(steps: seq<Step>) {
    forall i :: 0 <= i < |steps| ==> Calm(steps[i])
  }

  /** Collections and drops that have not ended. */
  function Pending(s: State): int {
    s.c.unscheduled + s.pool + Stuck(s) + s.working + s.dropAsleep + s.dropWoken + s.dropping
  }

  function CloserSteps(s: State): nat {
    match s.closer
    case Open => 5
    case Flagged => 4
    case Unscheduled(_) => 3
    case CloseWoken => 2
    case CloseAsleep => 1
    case Closed => 0
  }

  /** Steps that can be taken before a collection or a drop has to end. */
  function Moves(s: State): nat {
    3 * s.pool + 2 * s.arrived + 2 * s.gcWoken + s.gcAsleep + s.working
    + 2 * s.dropWoken + s.dropAsleep + s.dropping + CloserSteps(s)
  }

  /** Every end may wake all the waiting threads again. */
  function Rounds(pending: int): nat {
    if pending <= 0 then 0 else Rounds(pending - 1) + 3 * pending + 3
  }

  function Bound(s: State): nat {
    Rounds(Pending(s)) + Moves(s)
  }

  lemma FewMoves(s: State)
    requires s.c.unscheduled >= 0
    ensures Moves(s) <= 3 * Pending(s) + 5
  {}

  lemma {:induction false} FewerRounds(p: int, q: int)
    requires 0 <= q < p
    ensures Rounds(q) + 3 * q + 5 < Rounds(p)
    decreases p
  {
    if q < p - 1 { FewerRounds(p - 1, q); }
  }

  lemma EndShrinks(cfg: Config, s: State, step: Step)
    requires Inv(cfg, s) && Enabled(s, step) && (step.GcEnd? || step.DropDone? || step.DropFailed?)
    ensures Pending(Apply(cfg, s, step)) < Pending(s)
  {}

  lemma EnterShrinks(cfg: Config, s: State, step: Step)
    requires Inv(cfg, s) && Enabled(s, step) && (step.GcEnter? || step.GcWake?)
    ensures Pending(Apply(cfg, s, step)) <= Pending(s) && Moves(Apply(cfg, s, step)) < Moves(s)
  {
    assert s.c.queue != [];
  }

  lemma MoveShrinks(cfg: Config, s: State, step: Step)
    requires Inv(cfg, s) && Enabled(s, step) && Calm(step) && !step.GcEnd? && !step.DropDone? && !step.DropFailed?
    ensures Pending(Apply(cfg, s, step)) <= Pending(s) && Moves(Apply(cfg, s, step)) < Moves(s)
  {
    if step.GcEnter? || step.GcWake? { EnterShrinks(cfg, s, step); }
  }

  lemma StepShrinks(cfg: Config, s: State, step: Step)
    requires Inv(cfg, s) && Enabled(s, step) && Calm(step)
    ensures Bound(Apply(cfg, s, step)) < Bound(s)
  {
    var t := Apply(cfg, s, step);
    if step.GcEnd? || step.DropDone? || step.DropFailed? { EndShrinks(cfg, s, step); } else { MoveShrinks(cfg, s, step); }
    if Pending(t) < Pending(s) {
      StepKeepsInv(cfg, s, step);
      FewMoves(t);
      FewerRounds(Pending(s), Pending(t));
    }
  }

  /** Every run without new requests is finite: its length is bounded by the state it starts in. */
  lemma {:induction false} CalmRunsAreBounded(cfg: Config, s: State, steps: seq<Step>)
    requires Inv(cfg, s) && Legal(cfg, s, steps) && CalmRun(steps)
    ensures |steps| <= Bound(s)
    decreases |steps|
  {
    if steps != [] {
      StepShrinks(cfg, s, steps[0]);
      StepKeepsInv(cfg, s, steps[0]);
      CalmRunsAreBounded(cfg, Apply(cfg, s, steps[0]), steps[1..]);
    }
  }

  /** Nothing is left to do, short of new requests (and of closing, unless `closing`). */
  ghost predicate AtRest(s: State, closing: bool) {
    forall step :: Calm(step) && (step.CloseFlag? ==> closing) ==> !Enabled(s, step)
  }

  lemma RestMeansIdle(cfg: Config, s: State, closing: bool)
    requires Inv(cfg, s) && AtRest(s, closing)
    ensures s.pool == 0 && s.arrived == 0 && s.gcWoken == 0 && s.working == 0 && s.dropping == 0 && s.dropWoken == 0 && s.dropAsleep == 0
    ensures s.leaked == 0 ==> s.gcAsleep == 0
    ensures !s.closer.Flagged? && !s.closer.Unscheduled? && !s.closer.CloseWoken? && (closing ==> !s.closer.Open?)
  {
    assert !Enabled(s, PoolStart) && !Enabled(s, GcEnter) && !Enabled(s, GcWake) && !Enabled(s, GcEnd);
    assert !Enabled(s, DropDone) && !Enabled(s, DropWake);
    assert !Enabled(s, CloseUnschedule) && !Enabled(s, CloseLock) && !Enabled(s, CloseWake);
    assert closing ==> !Enabled(s, CloseFlag);
  }

  /** However its steps are ordered, a run that goes on until nothing is left closes the DB within the bound,
      unless a leaked drop request holds back a job that left the pool. */
  lemma CalmRunsClose(cfg: Config, s: State, steps: seq<Step>)
    requires Inv(cfg, s) && Legal(cfg, s, steps) && CalmRun(steps) && AtRest(Run(cfg, s, steps), true)
    ensures |steps| <= Bound(s)
    ensures var t := Run(cfg, s, steps); t.closer == Closed <==> t.leaked == 0 || Stuck(t) == 0
  {
    CalmRunsAreBounded(cfg, s, steps);
    RunKeepsInv(cfg, s, steps);
    RestMeansIdle(cfg, Run(cfg, s, steps), true);
  }

  lemma {:induction false} NobodyCloses(cfg: Config, s: State, steps: seq<Step>)
    requires s.closer == Open && Legal(cfg, s, steps) && CloseFlag !in steps
    ensures Run(cfg, s, steps).closer == Open
    decreases |steps|
  {
    if steps != [] {
      assert steps[0] in steps && forall x :: x in steps[1..] ==> x in steps;
      NobodyCloses(cfg, Apply(cfg, s, steps[0]), steps[1..]);
    }
  }

  /** And without a shutdown, such a run empties the queue, with the same exception. */
  lemma CalmRunsDrain(cfg: Config, s: State, steps: seq<Step>)
    requires Inv(cfg, s) && s.closer == Open && !cfg.disabled && cfg.maxBackgroundGc > 0
    requires Legal(cfg, s, steps) && CalmRun(steps) && CloseFlag !in steps && AtRest(Run(cfg, s, steps), false)
    ensures |steps| <= Bound(s)
    ensures var t := Run(cfg, s, steps); t.c.queue == [] <==> t.leaked == 0 || Stuck(t) == 0
  {
    CalmRunsAreBounded(cfg, s, steps);
    RunKeepsInv(cfg, s, steps);
    NobodyCloses(cfg, s, steps);
    RestMeansIdle(cfg, Run(cfg, s, steps), false);
  }
}
