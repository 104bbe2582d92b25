/**
 * A collection whose output files cannot be finished. The code deletes the outputs and takes the
 * status of the last delete for that of the installation, so a delete that works hides the failure.
 */
module LifetimeFailures {
  import opened FileStates
  import opened Coding
  import opened Lifetime
  import opened LifetimeProof
  import opened LifetimeGcProof
  import opened LifetimeRaces

  // ---- deleting the outputs ----

  /** The outputs that were deleted, when `oks` says which deletes work. */
  function DeletedOf(files: seq<nat>, oks: seq<bool>): set<nat>
    requires |oks| == |files|
  {
    set i | 0 <= i < |files| && oks[i] :: files[i]
  }

  /** The status returned is that of the last delete. */
  method BatchDeleteFiles(files: seq<nat>, oks: seq<bool>) returns (ok: bool, deleted: set<nat>)
    requires |oks| == |files|
    ensures ok == (files == [] || oks[|oks| - 1])
    ensures deleted == DeletedOf(files, oks)
  {
    ok, deleted := true, {};
    for i := 0 to |files|
      invariant ok == (i == 0 || oks[i - 1])
      invariant deleted == set k | 0 <= k < i && oks[k] :: files[k]
    {
      ok := oks[i];
      if ok { deleted := deleted + {files[i]}; }
    }
  }

  // ---- the hidden failure ----

  /** The job goes on as if it had installed its outputs, which are deleted and were never made known. */
  function Masked(st: State, id: nat, deleted: set<nat>): State
    requires id in st.jobs
  {
    st.(disk := st.disk - deleted,
        jobs := st.jobs[id := st.jobs[id].(outputs := {}, current := None, phase := Rewrite)])
  }

  /** A file number that is taken and that no step will make known. */
  ghost predicate Orphan(st: State, f: nat) {
    && f < st.nextFile && f !in st.files
    && (forall i :: i in st.seps ==> st.seps[i].file != f)
    && (forall a :: a in st.jobs ==> f !in st.jobs[a].outputs)
  }

  /** An input that only its own job can let go of. */
  ghost predicate Held(st: State, id: nat, f: nat) {
    && f in st.files && st.files[f].state == BeingGC && f < st.nextFile
    && (forall i :: i in st.seps ==> st.seps[i].file != f)
    && (forall a :: a in st.jobs ==> f !in st.jobs[a].outputs && (a != id ==> f !in st.jobs[a].inputs))
  }

  /** Job `id` holds its inputs and is to write back indexes into files that are gone. */
  ghost predicate Doomed(st: State, id: nat, inputs: set<nat>, moves: seq<Move>) {
    && id in st.jobs && st.jobs[id].phase != Scan && st.jobs[id].outputs == {}
    && st.jobs[id].inputs == inputs && st.jobs[id].moves == moves
    && (forall f :: f in inputs ==> Held(st, id, f))
    && (forall i :: 0 <= i < |moves| ==> Orphan(st, moves[i].to.file))
  }

  lemma MaskedIsDoomed(st: State, id: nat, deleted: set<nat>)
    requires Inv(st) && CanFail(st, id, deleted)
    ensures Doomed(Masked(st, id, deleted), id, st.jobs[id].inputs, st.jobs[id].moves)
  {
    var j, t := st.jobs[id], Masked(st, id, deleted);
    assert JobOk(st, j);
    forall f | f in j.inputs ensures Held(t, id, f) { InputIsHeld(st, id, f); }
    forall i | 0 <= i < |j.moves| ensures Orphan(t, j.moves[i].to.file) {
      assert MoveOk(st, j, j.moves[i]);
      OutputIsOrphaned(st, t, id, deleted, j.moves[i].to.file);
    }
  }

  lemma OutputIsOrphaned(st: State, t: State, id: nat, deleted: set<nat>, f: nat)
    requires WfDisk(st) && JobsApart(st) && CanFail(st, id, deleted) && JobFiles(st, st.jobs[id]) && f in st.jobs[id].outputs
    requires t == Masked(st, id, deleted)
    ensures Orphan(t, f)
  {}

  lemma InputIsHeld(st: State, id: nat, f: nat)
    requires Inv(st) && id in st.jobs && f in st.jobs[id].inputs
    ensures Held(st, id, f)
  {
    assert JobOk(st, st.jobs[id]);
    forall i | i in st.seps ensures st.seps[i].file != f { assert SepOk(st, st.seps[i]); }
    forall a | a in st.jobs ensures f !in st.jobs[a].outputs { assert JobOk(st, st.jobs[a]); }
  }

  predicate Ends(step: Step, id: nat) {
    (step.GcFinish? || step.GcAbort?) && step.id == id
  }

  predicate SepStep(step: Step) {
    step.SepBegin? || step.SepAdd? || step.SepInstall? || step.SepDone?
  }

  predicate JobStep(step: Step) {
    step.GcPick? || step.GcCheck? || step.GcInstall? || step.GcRewrite? || step.GcReadSeq?
  }

  lemma SepStepKeepsOrphan(st: State, step: Step, f: nat)
    requires Enabled(st, step) && Orphan(st, f) && SepStep(step)
    ensures Orphan(Apply(st, step), f)
  {}

  lemma CheckKeepsOrphan(st: State, step: Step, f: nat)
    requires Enabled(st, step) && Orphan(st, f) && step.GcCheck?
    ensures Orphan(Apply(st, step), f)
  {}

  lemma JobStepKeepsOrphan(st: State, step: Step, f: nat)
    requires Enabled(st, step) && Orphan(st, f) && JobStep(step)
    ensures Orphan(Apply(st, step), f)
  {
    if step.GcCheck? { CheckKeepsOrphan(st, step, f); }
  }

  lemma StepKeepsOrphan(st: State, step: Step, f: nat)
    requires Enabled(st, step) && Orphan(st, f)
    ensures Orphan(Apply(st, step), f)
  {
    if SepStep(step) {
      SepStepKeepsOrphan(st, step, f);
    } else if JobStep(step) {
      JobStepKeepsOrphan(st, step, f);
    }
  }

  lemma SepStepKeepsHeld(st: State, step: Step, id: nat, f: nat)
    requires Enabled(st, step) && Held(st, id, f) && SepStep(step)
    ensures Held(Apply(st, step), id, f)
  {}

  lemma CheckKeepsHeld(st: State, step: Step, id: nat, f: nat)
    requires Enabled(st, step) && Held(st, id, f) && step.GcCheck?
    ensures Held(Apply(st, step), id, f)
  {}

  lemma JobStepKeepsHeld(st: State, step: Step, id: nat, f: nat)
    requires Enabled(st, step) && Held(st, id, f) && JobStep(step)
    ensures Held(Apply(st, step), id, f)
  {
    if step.GcCheck? { CheckKeepsHeld(st, step, id, f); }
  }

  lemma EndStepKeepsHeld(st: State, step: Step, id: nat, f: nat)
    requires Enabled(st, step) && Held(st, id, f) && (step.GcFinish? || step.GcAbort? || step.GcFail?) && step.id != id
    ensures Held(Apply(st, step), id, f)
  {}

  lemma StepKeepsHeld(st: State, step: Step, id: nat, f: nat)
    requires Enabled(st, step) && Held(st, id, f) && id in st.jobs && st.jobs[id].phase != Scan && !Ends(step, id)
    ensures Held(Apply(st, step), id, f)
  {
    if SepStep(step) {
      SepStepKeepsHeld(st, step, id, f);
    } else if JobStep(step) {
      JobStepKeepsHeld(st, step, id, f);
    } else if step.GcFinish? || step.GcAbort? || step.GcFail? {
      EndStepKeepsHeld(st, step, id, f);
    }
  }

  ghost predicate SameJob(st: State, t: State, id: nat) {
    && id in st.jobs && id in t.jobs && t.jobs[id].phase != Scan
    && t.jobs[id].inputs == st.jobs[id].inputs && t.jobs[id].outputs == st.jobs[id].outputs && t.jobs[id].moves == st.jobs[id].moves
  }

  lemma JobStaysInScan(st: State, step: Step, id: nat)
    requires Enabled(st, step) && id in st.jobs && st.jobs[id].phase != Scan && (step.GcPick? || step.GcCheck? || step.GcInstall?)
    ensures SameJob(st, Apply(st, step), id)
  {}

  lemma JobStays(st: State, step: Step, id: nat)
    requires Enabled(st, step) && id in st.jobs && st.jobs[id].phase != Scan && !Ends(step, id)
    ensures SameJob(st, Apply(st, step), id)
  {
    if step.GcPick? || step.GcCheck? || step.GcInstall? { JobStaysInScan(st, step, id); }
  }

  lemma StepKeepsDoomed(st: State, step: Step, id: nat, inputs: set<nat>, moves: seq<Move>)
    requires Enabled(st, step) && Doomed(st, id, inputs, moves) && !Ends(step, id)
    ensures Doomed(Apply(st, step), id, inputs, moves)
  {
    JobStays(st, step, id);
    forall f | f in inputs ensures Held(Apply(st, step), id, f) { StepKeepsHeld(st, step, id, f); }
    forall i | 0 <= i < |moves| ensures Orphan(Apply(st, step), moves[i].to.file) { StepKeepsOrphan(st, step, moves[i].to.file); }
  }

  lemma {:induction false} RunKeepsDoomed(st: State, steps: seq<Step>, id: nat, inputs: set<nat>, moves: seq<Move>)
    requires Legal(st, steps) && Doomed(st, id, inputs, moves) && forall i :: 0 <= i < |steps| ==> !Ends(steps[i], id)
    ensures Doomed(Run(st, steps), id, inputs, moves)
    decreases |steps|
  {
    if steps != [] {
      StepKeepsDoomed(st, steps[0], id, inputs, moves);
      RunKeepsDoomed(Apply(st, steps[0]), steps[1..], id, inputs, moves);
    }
  }

  lemma DoomedRewriteDangles(st: State, id: nat, inputs: set<nat>, moves: seq<Move>)
    requires Doomed(st, id, inputs, moves) && CanRewrite(st, id)
    ensures !NoDangling(RewriteKey(st, id))
  {
    var t := RewriteKey(st, id);
    assert IsView(t, t.last) && VisibleAt(t.hist, t.last, t.last);
  }

  lemma DoomedFinishObsoletes(st: State, id: nat, inputs: set<nat>, moves: seq<Move>)
    requires Doomed(st, id, inputs, moves) && CanDelete(st, id)
    ensures forall f :: f in inputs ==> f in FinishGc(st, id).files && FinishGc(st, id).files[f].state == Obsolete
  {
    forall f | f in inputs ensures f in FinishGc(st, id).files && FinishGc(st, id).files[f].state == Obsolete { assert Held(st, id, f); }
  }

  /** However other steps interleave, every write-back after a hidden failure dangles at once, and the job's end makes every input obsolete. */
  lemma MaskedRunsLose(st: State, id: nat, deleted: set<nat>, steps: seq<Step>)
    requires Inv(st) && CanFail(st, id, deleted) && Legal(Masked(st, id, deleted), steps)
    requires forall i :: 0 <= i < |steps| ==> !Ends(steps[i], id)
    ensures var u := Run(Masked(st, id, deleted), steps);
            && (CanRewrite(u, id) ==> !NoDangling(RewriteKey(u, id)))
            && (CanDelete(u, id) ==> forall f :: f in st.jobs[id].inputs ==>
                                       f in FinishGc(u, id).files && FinishGc(u, id).files[f].state == Obsolete)
  {
    var inputs, moves, m := st.jobs[id].inputs, st.jobs[id].moves, Masked(st, id, deleted);
    MaskedIsDoomed(st, id, deleted);
    RunKeepsDoomed(m, steps, id, inputs, moves);
    var u := Run(m, steps);
    if CanRewrite(u, id) { DoomedRewriteDangles(u, id, inputs, moves); }
    if CanDelete(u, id) { DoomedFinishObsoletes(u, id, inputs, moves); }
  }

  // ---- exactly when a failed installation is safe ----

  function RewriteRest(st: State, id: nat): (t: State)
    requires id in st.jobs && st.jobs[id].phase == Rewrite
    ensures id in t.jobs && t.files == st.files && t.jobs[id].inputs == st.jobs[id].inputs && t.jobs[id].phase == Rewrite
    decreases |st.jobs[id].moves| - st.jobs[id].next
  {
    if CanRewrite(st, id) then RewriteRest(RewriteKey(st, id), id) else st
  }

  lemma {:induction false} LastMoveIsVisible(st: State, id: nat)
    requires CanRewrite(st, id)
    ensures var t, m := RewriteRest(st, id), st.jobs[id].moves[|st.jobs[id].moves| - 1];
            t.last in t.hist && t.hist[t.last] == Entry(m.key, Index(m.to))
    decreases |st.jobs[id].moves| - st.jobs[id].next
  {
    var t := RewriteKey(st, id);
    if CanRewrite(t, id) { LastMoveIsVisible(t, id); }
  }

  /** The rest of the job, left alone. The status of the last delete decides whether it notices the failure. */
  function AfterFailure(st: State, id: nat, deleted: set<nat>, lastOk: bool): State
    requires id in st.jobs
  {
    if lastOk then FinishGc(ReadObsoleteSeq(RewriteRest(Masked(st, id, deleted), id), id), id)
    else FailGc(st, id, deleted)
  }

  lemma MaskedEnds(st: State, id: nat, deleted: set<nat>, t: State)
    requires CanFail(st, id, deleted) && JobFiles(st, st.jobs[id]) && t == AfterFailure(st, id, deleted, true)
    ensures t.files.Keys == st.files.Keys
    ensures forall f :: f in st.jobs[id].inputs ==> f in t.files && t.files[f].state == Obsolete
  {}

  lemma MaskedDangles(st: State, id: nat, deleted: set<nat>, t: State)
    requires CanFail(st, id, deleted) && JobFiles(st, st.jobs[id]) && JobMoves(st, st.jobs[id])
    requires t == AfterFailure(st, id, deleted, true) && st.jobs[id].moves != []
    ensures !NoDangling(t)
  {
    var j, m := st.jobs[id], Masked(st, id, deleted);
    assert MoveOk(st, j, j.moves[|j.moves| - 1]);
    MaskedEnds(st, id, deleted, t);
    LastMoveIsVisible(m, id);
    assert IsView(t, t.last) && VisibleAt(t.hist, t.last, t.last);
  }

  lemma NothingMoved(st: State, id: nat, deleted: set<nat>, t: State)
    requires NoDangling(st) && CanFail(st, id, deleted) && JobFiles(st, st.jobs[id])
    requires t == AfterFailure(st, id, deleted, true) && st.jobs[id].moves == []
    ensures NoDangling(t)
  {
    MaskedEnds(st, id, deleted, t);
    assert RewriteRest(Masked(st, id, deleted), id) == Masked(st, id, deleted);
    forall v, s | IsView(t, v) && VisibleAt(t.hist, s, v) && t.hist[s].slot.Index? ensures t.hist[s].slot.loc.file in t.files {
      assert IsView(st, v) && VisibleAt(st.hist, s, v);
    }
  }

  lemma NoticedFreesInputs(st: State, id: nat, deleted: set<nat>, t: State)
    requires CanFail(st, id, deleted) && JobFiles(st, st.jobs[id]) && t == FailGc(st, id, deleted)
    ensures forall f :: f in st.jobs[id].inputs ==> f in t.files && t.files[f].state == Normal
  {}

  /** A failed installation leaves no index dangling exactly if the last delete fails too or nothing was relocated, and no input obsolete exactly if it fails. */
  lemma FailureIsSafeIff(st: State, id: nat, deleted: set<nat>, lastOk: bool)
    requires Inv(st) && CanFail(st, id, deleted) && st.jobs[id].inputs != {}
    ensures var t := AfterFailure(st, id, deleted, lastOk);
            && (NoDangling(t) <==> !lastOk || st.jobs[id].moves == [])
            && ((forall f :: f in st.jobs[id].inputs ==> f in t.files && t.files[f].state != Obsolete) <==> !lastOk)
            && (!lastOk ==> Inv(t))
  {
    var t := AfterFailure(st, id, deleted, lastOk);
    assert JobOk(st, st.jobs[id]);
    if lastOk {
      MaskedEnds(st, id, deleted, t);
      var f :| f in st.jobs[id].inputs;
      if st.jobs[id].moves == [] { NothingMoved(st, id, deleted, t); } else { MaskedDangles(st, id, deleted, t); }
    } else {
      FailKeepsInv(st, t, id, deleted);
      NoticedFreesInputs(st, id, deleted, t);
    }
  }

  // ---- over runs ----

  /** Every job has inputs, and an output only for a record it relocated. */
  ghost predicate Shaped(st: State) {
    forall a :: a in st.jobs ==> st.jobs[a].inputs != {} && (st.jobs[a].outputs != {} ==> st.jobs[a].moves != [])
  }

  lemma CheckKeepsShaped(st: State, step: Step)
    requires Enabled(st, step) && Shaped(st) && step.GcCheck?
    ensures Shaped(Apply(st, step))
  {}

  lemma StepKeepsShaped(st: State, step: Step)
    requires Enabled(st, step) && Shaped(st)
    ensures Shaped(Apply(st, step))
  {
    if step.GcCheck? { CheckKeepsShaped(st, step); }
  }

  lemma {:induction false} RunKeepsShaped(st: State, steps: seq<Step>)
    requires Legal(st, steps) && Shaped(st)
    ensures Shaped(Run(st, steps))
    decreases |steps|
  {
    if steps != [] {
      StepKeepsShaped(st, steps[0]);
      RunKeepsShaped(Apply(st, steps[0]), steps[1..]);
    }
  }

  /** In every run, a job that cannot finish one of its outputs keeps every index resolved and its inputs alive if and only if the last delete fails. */
  lemma FailedInstallationIsSafeIff(steps: seq<Step>, id: nat, deleted: set<nat>, lastOk: bool)
    requires Legal(START, steps) && CanFail(Run(START, steps), id, deleted) && Run(START, steps).jobs[id].outputs != {}
    ensures var st := Run(START, steps);
            var t := AfterFailure(st, id, deleted, lastOk);
            && (NoDangling(t) <==> !lastOk)
            && ((forall f :: f in st.jobs[id].inputs ==> f in t.files && t.files[f].state != Obsolete) <==> !lastOk)
  {
    StartHasInv();
    RunKeepsInv(START, steps);
    RunKeepsShaped(START, steps);
    FailureIsSafeIff(Run(START, steps), id, deleted, lastOk);
  }

  /** A value put, flushed, relocated and lost: the deletes of a failed installation work, and the key has no value any more. */
  lemma HiddenFailureLosesValue(k: Key, x: Value)
    ensures exists st :: Reaches(START, st) && CanFail(st, 0, {2}) && LosesValue(Masked(st, 0, {2}), 0, k, x)
  {
    FlushedIsReachable(k, x);
    PickThenCheck(k, x);
    var st := Relocating(k, x, Scan);
    ReachesTransitive(START, Flushed(k, x), st);
    RewriteLosesValue(k, x, Masked(st, 0, {2}));
  }

  ghost predicate LosesValue(st: State, id: nat, k: Key, x: Value) {
    && CanRewrite(st, id) && !NoDangling(RewriteKey(st, id))
    && Read(st, k, st.last) == UserRead(st.user, k, st.last) == Found(x)
    && Read(RewriteKey(st, id), k, st.last + 1).MissingFile? && UserRead(RewriteKey(st, id).user, k, st.last + 1) == Found(x)
  }

  lemma RewriteLosesValue(k: Key, x: Value, m: State)
    requires m == Masked(Relocating(k, x, Scan), 0, {2})
    ensures LosesValue(m, 0, k, x)
  {
    var t := RewriteKey(m, 0);
    assert m.last == 1 && t.last == 2 && 2 !in t.files;
    assert Newest(m.hist, k, 1) == Some(1) && Newest(t.hist, k, 2) == Some(2);
    assert Newest(t.user, k, 2) == Newest(t.user, k, 1) == Some(1);
    assert IsView(t, 2) && VisibleAt(t.hist, 2, 2);
  }
}
