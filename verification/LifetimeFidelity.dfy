/** Over all runs, quiet or not: exactly which write-backs of the collector lose what the user wrote. */
module LifetimeFidelity {
  import opened Lifetime
  import opened Coding
  import opened LifetimeProof
  import opened LifetimeGcProof
  import opened LifetimeValues

  // ---- steps other than a write-back ----

  lemma DiscardStores(st: State, t: State, id: nat, loc: Loc)
    requires WfHist(st) && id in st.jobs && t == st.(jobs := st.jobs[id := st.jobs[id].(todo := st.jobs[id].todo - {loc})])
    ensures SameStored(st, t)
  {
    QuietWorldStores(st, t);
  }

  lemma CheckStores(st: State, t: State, id: nat, loc: Loc, roll: bool)
    requires WfHist(st) && WfDisk(st) && JobsOk(st)
    requires CanScan(st, id, loc) && CanCheck(st, id, loc) && t == CheckRecord(st, id, loc, roll)
    ensures SameStored(st, t)
  {
    if IsLive(st, loc) {
      assert JobOk(st, st.jobs[id]);
      RelocateIsRelocated(st, t, id, loc, roll);
      var to :| Relocated(st, t, st.jobs[id], t.jobs[id], loc, to) && (to.file in st.jobs[id].outputs || to.file == st.nextFile);
      RelocateStores(st, t, id, loc, to);
    } else {
      DiscardStores(st, t, id, loc);
    }
  }

  lemma QuietStepStores(st: State, step: Step)
    requires WfHist(st) && WfDisk(st) && Enabled(st, step)
    requires step.TakeSnapshot? || step.ReleaseSnapshot? || step.SepBegin? || step.SepAdd? || step.SepDone? || step.GcPick?
             || step.GcInstall? || step.GcReadSeq? || step.GcFinish? || step.GcAbort? || step.Purge?
    ensures SameStored(st, Apply(st, step))
  {
    QuietWorldStores(st, Apply(st, step));
  }

  lemma StepStores(st: State, step: Step)
    requires WfHist(st) && WfDisk(st) && JobsOk(st) && SepsOk(st) && Enabled(st, step)
    requires !step.UserPut? && !step.UserDelete? && !step.GcRewrite?
    ensures SameStored(st, Apply(st, step))
  {
    if step.Compact? {
      DropStores(st, step.dropped);
    } else if step.SepInstall? {
      assert SepOk(st, st.seps[step.id]);
      InstallStores(st, Apply(st, step), step.id);
    } else if step.GcCheck? {
      CheckStores(st, Apply(st, step), step.id, step.loc, step.roll);
    } else if step.GcFail? {
      assert JobOk(st, st.jobs[step.id]);
      FailStores(st, Apply(st, step), step.id, step.deleted);
    } else {
      QuietStepStores(st, step);
    }
  }

  lemma OtherStepKeepsFaithful(st: State, step: Step)
    requires Inv(st) && WfUser(st) && Faithful(st) && Enabled(st, step) && !step.GcRewrite?
    ensures WfUser(Apply(st, step)) && Faithful(Apply(st, step))
  {
    if step.UserPut? {
      UserWriteKeepsFaithful(st, Apply(st, step), Entry(step.key, Inline(step.value)));
    } else if step.UserDelete? {
      UserWriteKeepsFaithful(st, Apply(st, step), Entry(step.key, Tombstone));
    } else {
      StepStores(st, step);
      SameStoredKeepsFaithful(st, Apply(st, step));
    }
  }

  // ---- a write-back ----

  /** Every reader gets what is stored. */
  ghost predicate ReadsStored(st: State) {
    forall k, v :: IsView(st, v) ==> Read(st, k, v) == Stored(st.hist, st.disk, k, v)
  }

  lemma InvReadsStored(st: State)
    requires WfHist(st) && NoDangling(st)
    ensures ReadsStored(st)
  {
    forall k, v: nat | IsView(st, v) ensures Read(st, k, v) == Stored(st.hist, st.disk, k, v) {
      var n := Newest(st.hist, k, v);
      assert n.Some? ==> VisibleAt(st.hist, n.value, v);
    }
  }

  function NextMove(st: State, id: nat): Move
    requires CanRewrite(st, id)
  {
    st.jobs[id].moves[st.jobs[id].next]
  }

  /** The value the collector copied. */
  function Copied(st: State, m: Move): Value
    requires OnDisk(st.disk, m.from)
  {
    st.disk[m.from.file][m.from.rec].value
  }

  /** A move is written back: its key's newest entry becomes the index of the copy. */
  ghost predicate WritesBack(st: State, t: State, m: Move) {
    && WfHist(st) && (forall v :: v in st.snaps ==> v <= st.last)
    && RewriteStep(st, t, m.key, m.to) && t.user == st.user
    && OnDisk(st.disk, m.from) && st.disk[m.to.file][m.to.rec] == st.disk[m.from.file][m.from.rec]
  }

  lemma RewriteWritesBack(st: State, t: State, id: nat)
    requires WfHist(st) && WfDisk(st) && JobsOk(st) && CanRewrite(st, id) && t == RewriteKey(st, id)
    ensures WritesBack(st, t, NextMove(st, id))
  {
    assert JobOk(st, st.jobs[id]);
    assert MoveOk(st, st.jobs[id], NextMove(st, id));
    RewriteIsRewriteStep(st, t, id);
  }

  lemma WriteBackStores(st: State, t: State, m: Move, k: Key, v: nat)
    requires WritesBack(st, t, m)
    ensures v <= st.last ==> Stored(t.hist, t.disk, k, v) == Stored(st.hist, st.disk, k, v)
    ensures Stored(t.hist, t.disk, k, t.last) == if k == m.key then Found(Copied(st, m)) else Stored(st.hist, st.disk, k, st.last)
  {
    StoredAfterPush(st.hist, st.disk, st.last, Entry(m.key, Index(m.to)), k, v);
  }

  /** The key still reads the value that was copied. */
  ghost predicate ReadsCopied(st: State, m: Move) {
    OnDisk(st.disk, m.from) && Read(st, m.key, st.last) == Found(Copied(st, m))
  }

  lemma NewestReadsCopied(st: State, m: Move)
    requires ReadsStored(st) && OnDisk(st.disk, m.from) && MoveIsNewest(st, m)
    ensures ReadsCopied(st, m)
  {
    assert IsView(st, st.last);
  }

  /** Snapshots and other keys read as before a write-back, and its own key reads as before if it still reads the copied value. */
  ghost predicate KeepsReads(st: State, t: State, m: Move) {
    && (forall k, v :: v in st.snaps ==> Read(t, k, v) == Read(st, k, v))
    && (forall k :: k != m.key ==> Read(t, k, t.last) == Read(st, k, st.last))
    && (Read(t, m.key, t.last) == Read(st, m.key, st.last) <==> MoveIsNewest(st, m) || ReadsCopied(st, m))
  }

  lemma WriteBackKeepsReads(st: State, t: State, m: Move)
    requires WritesBack(st, t, m) && ReadsStored(st) && ReadsStored(t)
    ensures KeepsReads(st, t, m)
  {
    assert IsView(st, st.last) && IsView(t, t.last);
    forall k, v: nat | v in st.snaps ensures Read(t, k, v) == Read(st, k, v) {
      assert IsView(st, v) && IsView(t, v);
      WriteBackStores(st, t, m, k, v);
    }
    forall k ensures Read(t, k, t.last) == if k == m.key then Found(Copied(st, m)) else Read(st, k, st.last) {
      WriteBackStores(st, t, m, k, 0);
    }
    if MoveIsNewest(st, m) { NewestReadsCopied(st, m); }
  }

  /**
   * What a write-back does to every reader: snapshots and other keys read as before, and its own key
   * reads as before exactly when the guard of the disabled write callback holds (its newest entry is
   * still the index that was copied) or it happens to hold the copied value.
   */
  lemma RewriteKeepsReadsIff(st: State, t: State, id: nat)
    requires Inv(st) && CanRewrite(st, id) && t == RewriteKey(st, id)
    ensures KeepsReads(st, t, NextMove(st, id))
  {
    RewriteWritesBack(st, t, id);
    InvReadsStored(st);
    RewriteKeepsInv(st, t, id);
    InvReadsStored(t);
    WriteBackKeepsReads(st, t, NextMove(st, id));
  }

  lemma WriteBackIsFaithfulAt(st: State, t: State, m: Move, k: Key, v: nat)
    requires WritesBack(st, t, m) && ReadsStored(st) && WfUser(st) && Faithful(st) && IsView(t, v)
    ensures FaithfulAt(t, k, v) <==> v != t.last || k != m.key || ReadsCopied(st, m)
  {
    assert IsView(st, st.last) && (v != t.last ==> IsView(st, v));
    assert FaithfulAt(st, k, st.last) && (v != t.last ==> FaithfulAt(st, k, v));
    WriteBackStores(st, t, m, k, v);
    assert Newest(st.user, k, st.last + 1) == Newest(st.user, k, st.last);
  }

  lemma WriteBackKeepsFaithfulIff(st: State, t: State, m: Move)
    requires WritesBack(st, t, m) && ReadsStored(st) && WfUser(st) && Faithful(st)
    ensures WfUser(t) && (Faithful(t) <==> ReadsCopied(st, m))
  {
    forall k, v: nat | IsView(t, v)
      ensures FaithfulAt(t, k, v) <==> v != t.last || k != m.key || ReadsCopied(st, m)
    {
      WriteBackIsFaithfulAt(st, t, m, k, v);
    }
    assert IsView(t, t.last);
    assert FaithfulAt(t, m.key, t.last) <==> ReadsCopied(st, m);
  }

  lemma RewriteKeepsFaithfulIff(st: State, t: State, id: nat)
    requires Inv(st) && WfUser(st) && Faithful(st) && CanRewrite(st, id) && t == RewriteKey(st, id)
    ensures WfUser(t) && (Faithful(t) <==> ReadsCopied(st, NextMove(st, id)))
  {
    RewriteWritesBack(st, t, id);
    InvReadsStored(st);
    WriteBackKeepsFaithfulIff(st, t, NextMove(st, id));
  }

  // ---- every run ----

  /** Every reader finds what the user wrote. */
  ghost predicate ReadsUser(st: State) {
    forall v, k :: IsView(st, v) ==> Read(st, k, v) == UserRead(st.user, k, v)
  }

  lemma ReadsUserIffFaithful(st: State)
    requires ReadsStored(st)
    ensures ReadsUser(st) <==> Faithful(st)
  {
    if Faithful(st) {
      forall v: nat, k | IsView(st, v) ensures Read(st, k, v) == UserRead(st.user, k, v) { assert FaithfulAt(st, k, v); }
    }
  }

  ghost predicate AlwaysReadsUser(st: State, steps: seq<Step>)
    requires Legal(st, steps)
    decreases |steps|
  {
    ReadsUser(st) && (steps == [] || AlwaysReadsUser(Apply(st, steps[0]), steps[1..]))
  }

  /** Some write-back of the run finds its key reading something else than the value it copied. */
  ghost predicate Overtakes(st: State, steps: seq<Step>)
    requires Legal(st, steps)
    decreases |steps|
  {
    && steps != []
    && ((steps[0].GcRewrite? && !ReadsCopied(st, NextMove(st, steps[0].id))) || Overtakes(Apply(st, steps[0]), steps[1..]))
  }

  lemma StepKeepsFaithfulIff(st: State, step: Step)
    requires Inv(st) && WfUser(st) && Faithful(st) && Enabled(st, step)
    ensures WfUser(Apply(st, step))
    ensures Faithful(Apply(st, step)) <==> !(step.GcRewrite? && !ReadsCopied(st, NextMove(st, step.id)))
  {
    if step.GcRewrite? {
      RewriteKeepsFaithfulIff(st, Apply(st, step), step.id);
    } else {
      OtherStepKeepsFaithful(st, step);
    }
  }

  lemma {:induction false} RunKeepsFaithfulIff(st: State, steps: seq<Step>)
    requires Inv(st) && WfUser(st) && Faithful(st) && Legal(st, steps)
    ensures AlwaysReadsUser(st, steps) <==> !Overtakes(st, steps)
    decreases |steps|
  {
    InvReadsStored(st);
    ReadsUserIffFaithful(st);
    if steps != [] {
      var t := Apply(st, steps[0]);
      StepKeepsInv(st, steps[0]);
      StepKeepsFaithfulIff(st, steps[0]);
      InvReadsStored(t);
      ReadsUserIffFaithful(t);
      if Faithful(t) { RunKeepsFaithfulIff(t, steps[1..]); }
    }
  }

  /** In a run from an empty DB, every reader finds at every point what the user wrote, exactly when no write-back overtakes a user write. */
  lemma RunsReadUserValuesIff(steps: seq<Step>)
    requires Legal(START, steps)
    ensures AlwaysReadsUser(START, steps) <==> !Overtakes(START, steps)
  {
    StartHasInv();
    RunKeepsFaithfulIff(START, steps);
  }

  /** The write callback's guard holds at every write-back of the run. */
  ghost predicate Guarded(st: State, steps: seq<Step>)
    requires Legal(st, steps)
    decreases |steps|
  {
    steps == [] || ((steps[0].GcRewrite? ==> MoveIsNewest(st, NextMove(st, steps[0].id))) && Guarded(Apply(st, steps[0]), steps[1..]))
  }

  lemma GuardMeansReadsCopied(st: State, id: nat)
    requires Inv(st) && CanRewrite(st, id) && MoveIsNewest(st, NextMove(st, id))
    ensures ReadsCopied(st, NextMove(st, id))
  {
    RewriteWritesBack(st, RewriteKey(st, id), id);
    InvReadsStored(st);
    NewestReadsCopied(st, NextMove(st, id));
  }

  lemma {:induction false} GuardedNeverOvertakes(st: State, steps: seq<Step>)
    requires Inv(st) && Legal(st, steps) && Guarded(st, steps)
    ensures !Overtakes(st, steps)
    decreases |steps|
  {
    if steps != [] {
      if steps[0].GcRewrite? { GuardMeansReadsCopied(st, steps[0].id); }
      StepKeepsInv(st, steps[0]);
      GuardedNeverOvertakes(Apply(st, steps[0]), steps[1..]);
    }
  }

  /** With the callback's guard no update is lost, however user writes and collections interleave. */
  lemma GuardedRunsReadUserValues(steps: seq<Step>)
    requires Legal(START, steps) && Guarded(START, steps)
    ensures AlwaysReadsUser(START, steps)
  {
    StartHasInv();
    GuardedNeverOvertakes(START, steps);
    RunsReadUserValuesIff(steps);
  }
}
