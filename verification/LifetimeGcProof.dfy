/** Garbage collection and purging keep the lifetime invariant; the theorems over whole runs. */
module LifetimeGcProof {
  import opened FileStates
  import opened Lifetime
  import opened Coding
  import opened LifetimeProof

  lemma SameWorldKeepsSeps(st: State, t: State)
    requires SepsOk(st) && SameWorld(st, t) && t.seps == st.seps
    requires forall id :: id in st.seps ==> SameState(st, t, st.seps[id].file)
    ensures SepsOk(t)
  {
    forall id | id in t.seps ensures SepOk(t, t.seps[id]) {
      assert SepOk(st, st.seps[id]);
      SameWorldKeepsSep(st, t, st.seps[id]);
    }
  }

  lemma OtherJobsKept(st: State, t: State, id: nat)
    requires JobsOk(st) && SameWorld(st, t)
    requires forall a :: a in t.jobs && a != id ==> a in st.jobs && t.jobs[a] == st.jobs[a]
    requires forall a, f :: a in st.jobs && a != id && (f in st.jobs[a].inputs || f in st.jobs[a].outputs) ==> SameState(st, t, f)
    ensures forall a :: a in t.jobs && a != id ==> JobOk(t, t.jobs[a])
  {
    forall a | a in t.jobs && a != id ensures JobOk(t, t.jobs[a]) {
      SameWorldKeepsJob(st, t, st.jobs[a]);
    }
  }

  // ---- picking inputs ----

  lemma PickedJobOk(st: State, t: State, id: nat, inputs: set<nat>)
    requires WfDisk(st) && CanPick(st, id, inputs) && t == Pick(st, id, inputs)
    ensures JobOk(t, t.jobs[id])
  {}

  lemma PickSameState(st: State, t: State, id: nat, inputs: set<nat>, f: nat)
    requires CanPick(st, id, inputs) && t == Pick(st, id, inputs)
    requires f in st.files ==> st.files[f].state != Normal
    ensures SameState(st, t, f)
  {}

  lemma PickKeepsSeps(st: State, t: State, id: nat, inputs: set<nat>)
    requires SepsOk(st) && CanPick(st, id, inputs) && t == Pick(st, id, inputs)
    ensures SepsOk(t)
  {
    forall i | i in st.seps ensures SameState(st, t, st.seps[i].file) {
      assert SepOk(st, st.seps[i]);
      PickSameState(st, t, id, inputs, st.seps[i].file);
    }
    SameWorldKeepsSeps(st, t);
  }

  lemma PickKeepsOtherJobs(st: State, t: State, id: nat, inputs: set<nat>)
    requires JobsOk(st) && CanPick(st, id, inputs) && t == Pick(st, id, inputs)
    ensures forall a :: a in t.jobs && a != id ==> JobOk(t, t.jobs[a])
  {
    forall a, f | a in st.jobs && (f in st.jobs[a].inputs || f in st.jobs[a].outputs) ensures SameState(st, t, f) {
      assert JobOk(st, st.jobs[a]);
      PickSameState(st, t, id, inputs, f);
    }
    OtherJobsKept(st, t, id);
  }

  lemma PickKeepsApart(st: State, t: State, id: nat, inputs: set<nat>)
    requires JobsOk(st) && JobsApart(st) && CanPick(st, id, inputs) && t == Pick(st, id, inputs)
    ensures JobsApart(t)
  {
    forall a | a in st.jobs ensures st.jobs[a].inputs !! inputs { assert JobOk(st, st.jobs[a]); }
  }

  lemma PickKeepsOwned(st: State, t: State, id: nat, inputs: set<nat>)
    requires Owned(st) && CanPick(st, id, inputs) && t == Pick(st, id, inputs)
    ensures Owned(t)
  {
    forall f | f in t.files ensures HasOwner(t, f) {
      if f in inputs {
        assert id in t.jobs && f in t.jobs[id].inputs;
      } else {
        OwnerKept(st, t, f);
      }
    }
  }

  lemma PickKeepsInv(st: State, id: nat, inputs: set<nat>)
    requires Inv(st) && CanPick(st, id, inputs)
    ensures Inv(Pick(st, id, inputs))
  {
    var t := Pick(st, id, inputs);
    PickKeepsSeps(st, t, id, inputs);
    PickedJobOk(st, t, id, inputs);
    PickKeepsOtherJobs(st, t, id, inputs);
    PickKeepsApart(st, t, id, inputs);
    PickKeepsOwned(st, t, id, inputs);
    SameWorldKeepsBase(st, t);
  }

  // ---- checking one input record ----

  ghost predicate CanScan(st: State, id: nat, loc: Loc) {
    id in st.jobs && st.jobs[id].phase == Scan && loc in st.jobs[id].todo
  }

  lemma ScannedIsOnDisk(st: State, id: nat, loc: Loc)
    requires JobsOk(st) && CanScan(st, id, loc)
    ensures CanCheck(st, id, loc)
  {
    assert JobOk(st, st.jobs[id]);
  }

  /** A record that is not live is out of sight at the latest sequence. */
  lemma DeadIsUnseen(st: State, loc: Loc)
    requires WfHist(st) && OnDisk(st.disk, loc) && !IsLive(st, loc)
    ensures Unseen(st.hist, st.last, loc)
  {}

  lemma DiscardKeepsJob(st: State, t: State, id: nat, loc: Loc)
    requires WfHist(st) && CanScan(st, id, loc) && JobOk(st, st.jobs[id]) && OnDisk(st.disk, loc) && !IsLive(st, loc)
    requires t == st.(jobs := st.jobs[id := st.jobs[id].(todo := st.jobs[id].todo - {loc})])
    ensures JobOk(t, t.jobs[id])
  {
    DeadIsUnseen(st, loc);
    var j, j' := st.jobs[id], t.jobs[id];
    forall i | 0 <= i < |j'.moves| ensures MoveOk(t, j', j'.moves[i]) { assert MoveOk(st, j, j.moves[i]); }
    forall l: Loc | PendingMove(j, l) ensures PendingMove(j', l) {
      var i :| j.next <= i < |j.moves| && j.moves[i].from == l;
      assert j'.moves[i].from == l;
    }
  }

  /** What relocation does to a job, whichever output it goes to. */
  ghost predicate Relocated(st: State, t: State, j: GcJob, j': GcJob, loc: Loc, to: Loc) {
    && j'.inputs == j.inputs && j'.todo == j.todo - {loc} && j'.phase == j.phase && j'.next == j.next
    && OnDisk(st.disk, loc)
    && j'.moves == j.moves + [Move(loc, to, st.disk[loc.file][loc.rec].key)]
    && j'.outputs == j.outputs + {to.file} && j'.current == Some(to.file)
    && GrowDisk(st, t) && !OnDisk(st.disk, to) && OnDisk(t.disk, to)
    && t.disk[to.file][to.rec] == st.disk[loc.file][loc.rec]
    && to.file !in st.files
  }

  /** A live record goes to a file that no other job, file or separation has. */
  ghost predicate RelocatedTo(st: State, t: State, id: nat, loc: Loc, to: Loc) {
    && id in st.jobs && id in t.jobs
    && Relocated(st, t, st.jobs[id], t.jobs[id], loc, to) && (to.file in st.jobs[id].outputs || to.file == st.nextFile)
    && (forall f :: f in st.disk && f !in st.jobs[id].outputs ==> t.disk[f] == st.disk[f])
    && OneJob(st, t, id)
  }

  lemma RelocatesToNew(st: State, t: State, id: nat, loc: Loc, roll: bool)
    requires WfDisk(st) && CanScan(st, id, loc) && JobFiles(st, st.jobs[id]) && CanCheck(st, id, loc)
    requires IsLive(st, loc) && t == CheckRecord(st, id, loc, roll) && (st.jobs[id].current == None || roll)
    ensures RelocatedTo(st, t, id, loc, Loc(st.nextFile, 0))
  {}

  lemma RelocatesToOpen(st: State, t: State, id: nat, loc: Loc, roll: bool)
    requires WfDisk(st) && CanScan(st, id, loc) && JobFiles(st, st.jobs[id]) && CanCheck(st, id, loc)
    requires IsLive(st, loc) && t == CheckRecord(st, id, loc, roll) && st.jobs[id].current.Some? && !roll
    ensures RelocatedTo(st, t, id, loc, Loc(st.jobs[id].current.value, |st.disk[st.jobs[id].current.value]|))
  {}

  lemma RelocateIsRelocated(st: State, t: State, id: nat, loc: Loc, roll: bool)
    requires WfDisk(st) && CanScan(st, id, loc) && JobFiles(st, st.jobs[id]) && CanCheck(st, id, loc)
    requires IsLive(st, loc) && t == CheckRecord(st, id, loc, roll)
    ensures exists to :: Relocated(st, t, st.jobs[id], t.jobs[id], loc, to) && (to.file in st.jobs[id].outputs || to.file == st.nextFile)
    ensures forall f :: f in st.disk && f !in st.jobs[id].outputs ==> t.disk[f] == st.disk[f]
    ensures OneJob(st, t, id)
  {
    if st.jobs[id].current == None || roll {
      RelocatesToNew(st, t, id, loc, roll);
    } else {
      RelocatesToOpen(st, t, id, loc, roll);
    }
  }

  lemma RelocatedMovesOk(st: State, t: State, j: GcJob, j': GcJob, loc: Loc, to: Loc)
    requires WfHist(st) && j.phase == Scan && loc in j.todo && JobFiles(st, j) && JobMoves(st, j) && Relocated(st, t, j, j', loc, to)
    requires to.file in j.outputs || to.file !in st.disk
    ensures JobMoves(t, j')
  {
    forall i | 0 <= i < |j'.moves| ensures MoveOk(t, j', j'.moves[i]) {
      if i < |j.moves| { assert MoveOk(st, j, j.moves[i]); }
    }
    forall i | 0 <= i < |j.moves| ensures j.moves[i].from != loc && j.moves[i].to != to {
      assert MoveOk(st, j, j.moves[i]);
    }
    assert Unreferenced(st.hist, to);
    assert FileUnreferenced(st.hist, to.file);
  }

  lemma RelocatedJobOk(st: State, t: State, j: GcJob, j': GcJob, loc: Loc, to: Loc)
    requires WfHist(st) && WfDisk(st) && j.phase == Scan && loc in j.todo && JobOk(st, j) && Relocated(st, t, j, j', loc, to)
    requires to.file in j.outputs || to.file !in st.disk
    requires forall f :: f in j.inputs ==> t.disk[f] == st.disk[f]
    ensures JobOk(t, j')
  {
    RelocatedMovesOk(st, t, j, j', loc, to);
    assert JobFiles(t, j');
    assert j'.moves[|j.moves|].from == loc;
    forall l: Loc | PendingMove(j, l) ensures PendingMove(j', l) {
      var i :| j.next <= i < |j.moves| && j.moves[i].from == l;
      assert j'.moves[i].from == l;
    }
  }

  lemma OtherJobsGrow(st: State, t: State, id: nat)
    requires WfDisk(st) && JobsOk(st) && GrowDisk(st, t)
    requires forall a :: a in t.jobs && a != id ==> a in st.jobs && t.jobs[a] == st.jobs[a]
    requires forall f :: f in st.files ==> t.disk[f] == st.disk[f]
    ensures forall a :: a in t.jobs && a != id ==> JobOk(t, t.jobs[a])
  {
    forall a | a in t.jobs && a != id ensures JobOk(t, t.jobs[a]) {
      GrowDiskKeepsJob(st, t, st.jobs[a]);
    }
  }

  lemma GrowDiskKeepsSeps(st: State, t: State)
    requires SepsOk(st) && GrowDisk(st, t) && t.seps == st.seps
    requires forall id :: id in st.seps && st.seps[id].file in st.disk ==> t.disk[st.seps[id].file] == st.disk[st.seps[id].file]
    ensures SepsOk(t)
  {
    forall id | id in t.seps ensures SepOk(t, t.seps[id]) {
      assert SepOk(st, st.seps[id]);
      GrowDiskKeepsSep(st, t, st.seps[id]);
    }
  }

  /** Only job `id` differs, and it kept its inputs and lost no output. */
  ghost predicate OneJob(st: State, t: State, id: nat) {
    && t.seps == st.seps && t.jobs.Keys == st.jobs.Keys && id in st.jobs
    && (forall a :: a in st.jobs && a != id ==> t.jobs[a] == st.jobs[a])
    && t.jobs[id].inputs == st.jobs[id].inputs && st.jobs[id].outputs <= t.jobs[id].outputs
  }

  lemma OneJobKeepsOwned(st: State, t: State, id: nat)
    requires Owned(st) && t.files == st.files && OneJob(st, t, id)
    ensures Owned(t)
  {
    OwnersKept(st, t);
  }

  lemma OneJobKeepsApart(st: State, t: State, id: nat)
    requires JobsApart(st) && OneJob(st, t, id) && t.jobs[id].outputs == st.jobs[id].outputs
    ensures JobsApart(t)
  {}

  ghost predicate FreshFile(st: State, file: nat) {
    && (forall a :: a in st.jobs ==> file !in st.jobs[a].outputs)
    && (forall b :: b in st.seps ==> st.seps[b].file != file)
  }

  lemma NotOnDiskIsFresh(st: State, file: nat)
    requires SepsOk(st) && JobsOk(st) && file !in st.disk
    ensures FreshFile(st, file)
  {
    forall a | a in st.jobs ensures file !in st.jobs[a].outputs { assert JobOk(st, st.jobs[a]); }
    forall b | b in st.seps ensures st.seps[b].file != file { assert SepOk(st, st.seps[b]); }
  }

  lemma NewOutputIsApart(st: State, t: State, id: nat, file: nat)
    requires JobsApart(st) && FreshFile(st, file) && OneJob(st, t, id)
    requires t.jobs[id].outputs == st.jobs[id].outputs + {file}
    ensures JobsApart(t)
  {}

  lemma DiscardKeepsJobs(st: State, t: State, id: nat, loc: Loc)
    requires WfHist(st) && WfDisk(st) && JobsOk(st) && CanScan(st, id, loc) && OnDisk(st.disk, loc) && !IsLive(st, loc)
    requires t == st.(jobs := st.jobs[id := st.jobs[id].(todo := st.jobs[id].todo - {loc})])
    requires GrowDisk(st, t)
    ensures JobsOk(t)
  {
    assert JobOk(st, st.jobs[id]);
    DiscardKeepsJob(st, t, id, loc);
    OtherJobsGrow(st, t, id);
  }

  lemma DiscardIsOneJob(st: State, t: State, id: nat, loc: Loc)
    requires WfDisk(st) && id in st.jobs
    requires t == st.(jobs := st.jobs[id := st.jobs[id].(todo := st.jobs[id].todo - {loc})])
    ensures OneJob(st, t, id) && GrowDisk(st, t) && t.disk == st.disk && t.jobs[id].outputs == st.jobs[id].outputs
  {}

  lemma DiscardKeepsInv(st: State, t: State, id: nat, loc: Loc)
    requires Inv(st) && CanScan(st, id, loc) && CanCheck(st, id, loc) && !IsLive(st, loc)
    requires t == st.(jobs := st.jobs[id := st.jobs[id].(todo := st.jobs[id].todo - {loc})])
    ensures Inv(t)
  {
    DiscardIsOneJob(st, t, id, loc);
    DiscardKeepsJobs(st, t, id, loc);
    OneJobKeepsApart(st, t, id);
    OneJobKeepsOwned(st, t, id);
    GrowDiskKeepsSeps(st, t);
    GrowDiskKeepsBase(st, t);
  }

  lemma RelocateKeepsApart(st: State, t: State, id: nat, to: Loc)
    requires JobsApart(st) && OneJob(st, t, id)
    requires t.jobs[id].outputs == st.jobs[id].outputs + {to.file}
    requires to.file in st.jobs[id].outputs || FreshFile(st, to.file)
    ensures JobsApart(t)
  {
    if to.file in st.jobs[id].outputs {
      assert t.jobs[id].outputs == st.jobs[id].outputs;
      OneJobKeepsApart(st, t, id);
    } else {
      NewOutputIsApart(st, t, id, to.file);
    }
  }

  lemma RelocateKeepsJobs(st: State, t: State, id: nat, loc: Loc, to: Loc)
    requires WfHist(st) && WfDisk(st) && JobsOk(st) && CanScan(st, id, loc) && OneJob(st, t, id)
    requires Relocated(st, t, st.jobs[id], t.jobs[id], loc, to) && (to.file in st.jobs[id].outputs || to.file == st.nextFile)
    requires forall f :: f in st.disk && f !in st.jobs[id].outputs ==> t.disk[f] == st.disk[f]
    ensures JobsOk(t)
  {
    assert JobOk(st, st.jobs[id]);
    RelocatedJobOk(st, t, st.jobs[id], t.jobs[id], loc, to);
    OtherJobsGrow(st, t, id);
  }

  lemma RelocateKeepsInv(st: State, t: State, id: nat, loc: Loc, roll: bool)
    requires Inv(st) && CanScan(st, id, loc) && CanCheck(st, id, loc) && IsLive(st, loc)
    requires t == CheckRecord(st, id, loc, roll)
    ensures Inv(t)
  {
    assert JobOk(st, st.jobs[id]);
    RelocateIsRelocated(st, t, id, loc, roll);
    var to :| Relocated(st, t, st.jobs[id], t.jobs[id], loc, to) && (to.file in st.jobs[id].outputs || to.file == st.nextFile);
    RelocateKeepsJobs(st, t, id, loc, to);
    NotOnDiskIsFresh(st, st.nextFile);
    RelocateKeepsApart(st, t, id, to);
    GrowDiskKeepsSeps(st, t);
    GrowDiskKeepsBase(st, t);
    OneJobKeepsOwned(st, t, id);
  }

  lemma CheckKeepsInv(st: State, id: nat, loc: Loc, roll: bool)
    requires Inv(st) && CanScan(st, id, loc) && CanCheck(st, id, loc)
    ensures Inv(CheckRecord(st, id, loc, roll))
  {
    var t := CheckRecord(st, id, loc, roll);
    if IsLive(st, loc) { RelocateKeepsInv(st, t, id, loc, roll); } else { DiscardKeepsInv(st, t, id, loc); }
  }

  // ---- installing outputs, writing keys back, deleting inputs ----

  lemma InstalledJobOk(st: State, t: State, id: nat)
    requires id in st.jobs && JobOk(st, st.jobs[id]) && st.jobs[id].phase == Scan && st.jobs[id].todo == {}
    requires t == InstallOutputs(st, id)
    ensures JobOk(t, t.jobs[id])
  {
    var j, j' := st.jobs[id], t.jobs[id];
    forall i | 0 <= i < |j'.moves| ensures MoveOk(t, j', j'.moves[i]) { assert MoveOk(st, j, j.moves[i]); }
    forall l: Loc | PendingMove(j, l) ensures PendingMove(j', l) {
      var i :| j.next <= i < |j.moves| && j.moves[i].from == l;
      assert j'.moves[i].from == l;
    }
  }

  lemma InstallOutputsKeepsOthers(st: State, t: State, id: nat)
    requires JobsOk(st) && JobsApart(st) && id in st.jobs && st.jobs[id].phase == Scan && t == InstallOutputs(st, id)
    ensures forall a :: a in t.jobs && a != id ==> JobOk(t, t.jobs[a])
  {
    assert JobOk(st, st.jobs[id]);
    forall a, f | a in st.jobs && a != id && (f in st.jobs[a].inputs || f in st.jobs[a].outputs) ensures SameState(st, t, f) {
      assert JobOk(st, st.jobs[a]);
    }
    OtherJobsKept(st, t, id);
  }

  lemma InstallOutputsKeepsSeps(st: State, t: State, id: nat)
    requires SepsOk(st) && JobsApart(st) && id in st.jobs && t == InstallOutputs(st, id)
    ensures SepsOk(t)
  {
    SameWorldKeepsSeps(st, t);
  }

  lemma InstallOutputsKeepsOwned(st: State, t: State, id: nat)
    requires Owned(st) && id in st.jobs && t == InstallOutputs(st, id)
    ensures Owned(t)
  {
    forall f | f in t.files ensures HasOwner(t, f) {
      if f in st.jobs[id].outputs {
        assert id in t.jobs && f in t.jobs[id].outputs;
      } else {
        OwnerKept(st, t, f);
      }
    }
  }

  lemma InstallOutputsKeepsBase(st: State, t: State, id: nat)
    requires Base(st) && id in st.jobs && JobFiles(st, st.jobs[id]) && t == InstallOutputs(st, id)
    ensures Base(t)
  {
    SameWorldKeepsBase(st, t);
  }

  lemma InstallOutputsIsOneJob(st: State, t: State, id: nat)
    requires id in st.jobs && t == InstallOutputs(st, id)
    ensures OneJob(st, t, id) && t.jobs[id].outputs == st.jobs[id].outputs
  {}

  lemma InstallOutputsKeepsInv(st: State, id: nat)
    requires Inv(st) && id in st.jobs && st.jobs[id].phase == Scan && st.jobs[id].todo == {}
    ensures Inv(InstallOutputs(st, id))
  {
    var t := InstallOutputs(st, id);
    assert JobOk(st, st.jobs[id]);
    InstalledJobOk(st, t, id);
    InstallOutputsKeepsOthers(st, t, id);
    InstallOutputsKeepsSeps(st, t, id);
    InstallOutputsKeepsOwned(st, t, id);
    InstallOutputsKeepsBase(st, t, id);
    InstallOutputsIsOneJob(st, t, id);
    OneJobKeepsApart(st, t, id);
  }

  /** Writing an index of a fresh output record back as the newest entry of its key. */
  ghost predicate RewriteStep(st: State, t: State, key: Key, to: Loc) {
    && t.hist == st.hist[st.last + 1 := Entry(key, Index(to))] && t.last == st.last + 1
    && t.snaps == st.snaps && t.files == st.files && t.disk == st.disk && t.nextFile == st.nextFile && t.seps == st.seps
    && OnDisk(st.disk, to) && st.disk[to.file][to.rec].key == key && Unreferenced(st.hist, to)
  }

  lemma RewriteIsRewriteStep(st: State, t: State, id: nat)
    requires CanRewrite(st, id) && JobOk(st, st.jobs[id]) && t == RewriteKey(st, id)
    ensures var m := st.jobs[id].moves[st.jobs[id].next];
            RewriteStep(st, t, m.key, m.to) && m.to.file in st.files && st.files[m.to.file].state == PendingGC
            && m.to.file in st.jobs[id].outputs
    ensures OneJob(st, t, id) && t.jobs[id] == st.jobs[id].(next := st.jobs[id].next + 1)
  {
    var j := st.jobs[id];
    assert MoveOk(st, j, j.moves[j.next]);
  }

  lemma RewriteKeepsUnseen(st: State, t: State, key: Key, to: Loc, from: nat, f: nat)
    requires WfHist(st) && WfDisk(st) && RewriteStep(st, t, key, to)
    requires from <= st.last && f != to.file && FileUnseenFrom(st, from, f)
    ensures FileUnseenFrom(t, from, f)
  {
    PushSeesLess(st, t, Entry(key, Index(to)));
    assert IsView(st, st.last);
  }

  lemma RewriteKeepsBase(st: State, t: State, key: Key, to: Loc)
    requires Base(st) && RewriteStep(st, t, key, to) && to.file in st.files && st.files[to.file].state != Obsolete
    ensures Base(t)
  {
    PushSeesLess(st, t, Entry(key, Index(to)));
    assert IsView(st, st.last);
    forall f | f in t.files && t.files[f].state == Obsolete ensures FileUnseenFrom(t, t.files[f].obsoleteSeq, f) {
      RewriteKeepsUnseen(st, t, key, to, t.files[f].obsoleteSeq, f);
    }
  }

  lemma RewriteKeepsSeps(st: State, t: State, key: Key, to: Loc)
    requires SepsOk(st) && RewriteStep(st, t, key, to)
    requires forall id :: id in st.seps ==> st.seps[id].file != to.file
    ensures SepsOk(t)
  {
    forall id | id in t.seps ensures SepOk(t, t.seps[id]) {
      var sep := st.seps[id];
      assert SepOk(st, sep);
      forall i | 0 <= i < |sep.seqs| ensures sep.seqs[i] <= st.last { assert sep.seqs[i] in sep.seqs; }
    }
  }

  lemma RewriteKeepsUnseenRecord(st: State, t: State, key: Key, to: Loc, loc: Loc)
    requires WfHist(st) && WfDisk(st) && RewriteStep(st, t, key, to) && loc != to && Unseen(st.hist, st.last, loc)
    ensures Unseen(t.hist, t.last, loc)
  {
    PushSeesLess(st, t, Entry(key, Index(to)));
    forall s | s in t.hist && t.hist[s].slot == Index(loc) ensures Newest(t.hist, t.hist[s].key, t.last) != Some(s) {
      if Newest(t.hist, t.hist[s].key, t.last) == Some(s) { assert VisibleAt(t.hist, s, t.last); }
    }
  }

  /** The moved record goes out of sight: its key has a newer entry now. */
  lemma RewriteHidesSource(st: State, t: State, key: Key, to: Loc, from: Loc)
    requires WfHist(st) && RewriteStep(st, t, key, to) && from != to && OnDisk(st.disk, from) && st.disk[from.file][from.rec].key == key
    ensures Unseen(t.hist, t.last, from)
  {}

  lemma RewriteKeepsOtherJob(st: State, t: State, key: Key, to: Loc, j: GcJob)
    requires WfHist(st) && WfDisk(st) && RewriteStep(st, t, key, to) && JobOk(st, j)
    requires to.file !in j.inputs && to.file !in j.outputs
    ensures JobOk(t, j)
  {
    forall i | 0 <= i < |j.moves| ensures MoveOk(t, j, j.moves[i]) { assert MoveOk(st, j, j.moves[i]); }
    forall loc: Loc | loc.file in j.inputs && Unseen(st.hist, st.last, loc) ensures Unseen(t.hist, t.last, loc) {
      RewriteKeepsUnseenRecord(st, t, key, to, loc);
    }
    if j.phase.Deleting? {
      forall f | f in j.inputs ensures FileUnseenFrom(t, j.phase.obsoleteSeq, f) {
        RewriteKeepsUnseen(st, t, key, to, j.phase.obsoleteSeq, f);
      }
    }
  }

  lemma RewrittenProgress(st: State, t: State, j: GcJob, j': GcJob)
    requires WfHist(st) && WfDisk(st) && JobOk(st, j) && j.phase == Rewrite && j.next < |j.moves| && j' == j.(next := j.next + 1)
    requires RewriteStep(st, t, j.moves[j.next].key, j.moves[j.next].to) && j.moves[j.next].to.file !in j.inputs
    ensures JobProgress(t, j')
  {
    var m := j.moves[j.next];
    assert MoveOk(st, j, m);
    forall loc: Loc | loc.file in j.inputs && OnDisk(t.disk, loc)
      ensures loc in j'.todo || PendingMove(j', loc) || Unseen(t.hist, t.last, loc)
    {
      if loc == m.from {
        RewriteHidesSource(st, t, m.key, m.to, loc);
      } else if PendingMove(j, loc) {
        var i :| j.next <= i < |j.moves| && j.moves[i].from == loc;
        assert j'.next <= i && j'.moves[i].from == loc;
      } else if Unseen(st.hist, st.last, loc) {
        RewriteKeepsUnseenRecord(st, t, m.key, m.to, loc);
      }
    }
  }

  lemma RewrittenJobOk(st: State, t: State, j: GcJob, j': GcJob)
    requires WfHist(st) && WfDisk(st) && JobOk(st, j) && j.phase == Rewrite && j.next < |j.moves| && j' == j.(next := j.next + 1)
    requires RewriteStep(st, t, j.moves[j.next].key, j.moves[j.next].to) && j.moves[j.next].to.file !in j.inputs
    ensures JobOk(t, j')
  {
    RewrittenProgress(st, t, j, j');
    forall i | 0 <= i < |j'.moves| ensures MoveOk(t, j', j'.moves[i]) { assert MoveOk(st, j, j.moves[i]); }
    forall i | j'.next <= i < |j'.moves| ensures Unreferenced(t.hist, j'.moves[i].to) {
      assert Unreferenced(st.hist, j.moves[i].to);
    }
  }

  lemma RewriteKeepsJobs(st: State, t: State, id: nat, m: Move)
    requires WfHist(st) && WfDisk(st) && JobsOk(st) && JobsApart(st) && OneJob(st, t, id) && RewriteStep(st, t, m.key, m.to)
    requires st.jobs[id].phase == Rewrite && st.jobs[id].next < |st.jobs[id].moves| && m == st.jobs[id].moves[st.jobs[id].next]
    requires t.jobs[id] == st.jobs[id].(next := st.jobs[id].next + 1)
    requires m.to.file in st.files && st.files[m.to.file].state == PendingGC && m.to.file in st.jobs[id].outputs
    ensures JobsOk(t)
  {
    assert JobOk(st, st.jobs[id]);
    RewrittenJobOk(st, t, st.jobs[id], t.jobs[id]);
    forall a | a in st.jobs && a != id ensures JobOk(t, t.jobs[a]) {
      assert JobOk(st, st.jobs[a]);
      RewriteKeepsOtherJob(st, t, m.key, m.to, st.jobs[a]);
    }
  }

  lemma RewriteKeepsInv(st: State, t: State, id: nat)
    requires Inv(st) && CanRewrite(st, id) && t == RewriteKey(st, id)
    ensures Inv(t)
  {
    var m := st.jobs[id].moves[st.jobs[id].next];
    assert JobOk(st, st.jobs[id]);
    RewriteIsRewriteStep(st, t, id);
    RewriteKeepsBase(st, t, m.key, m.to);
    RewriteKeepsSeps(st, t, m.key, m.to);
    RewriteKeepsJobs(st, t, id, m);
    OneJobKeepsApart(st, t, id);
    OneJobKeepsOwned(st, t, id);
  }

  /** With every record discarded or written back, no reader from the latest sequence on sees an input. */
  lemma AllMovedIsUnseen(st: State, j: GcJob, f: nat)
    requires WfHist(st) && WfDisk(st) && JobOk(st, j) && j.phase == Rewrite && j.next == |j.moves| && f in j.inputs
    ensures FileUnseenFrom(st, st.last, f)
  {
    forall v: nat, s: nat | IsView(st, v) && st.last <= v && VisibleAt(st.hist, s, v) && st.hist[s].slot.Index?
      ensures st.hist[s].slot.loc.file != f
    {
      assert OnDisk(st.disk, st.hist[s].slot.loc);
    }
  }

  lemma ReadSeqJobOk(st: State, t: State, id: nat)
    requires WfHist(st) && WfDisk(st) && CanReadSeq(st, id) && JobOk(st, st.jobs[id]) && t == ReadObsoleteSeq(st, id)
    ensures JobOk(t, t.jobs[id])
  {
    var j, j' := st.jobs[id], t.jobs[id];
    forall f | f in j.inputs ensures FileUnseenFrom(t, st.last, f) { AllMovedIsUnseen(st, j, f); }
    forall i | 0 <= i < |j'.moves| ensures MoveOk(t, j', j'.moves[i]) { assert MoveOk(st, j, j.moves[i]); }
  }

  lemma ReadSeqIsOneJob(st: State, t: State, id: nat)
    requires WfDisk(st) && id in st.jobs && t == ReadObsoleteSeq(st, id)
    ensures OneJob(st, t, id) && GrowDisk(st, t) && t.disk == st.disk && t.jobs[id].outputs == st.jobs[id].outputs
  {}

  lemma ReadSeqKeepsInv(st: State, t: State, id: nat)
    requires Inv(st) && CanReadSeq(st, id) && t == ReadObsoleteSeq(st, id)
    ensures Inv(t)
  {
    assert JobOk(st, st.jobs[id]);
    ReadSeqIsOneJob(st, t, id);
    ReadSeqJobOk(st, t, id);
    OtherJobsGrow(st, t, id);
    OneJobKeepsApart(st, t, id);
    OneJobKeepsOwned(st, t, id);
    GrowDiskKeepsSeps(st, t);
    GrowDiskKeepsBase(st, t);
  }

  // ---- the end of a job, and purging ----

  /** Job `id` is gone; its files are no longer in collection, and no other file changed. */
  ghost predicate JobGone(st: State, t: State, id: nat) {
    && id in st.jobs && SameWorld(st, t) && t.seps == st.seps && t.jobs == st.jobs - {id}
    && t.files.Keys == st.files.Keys
    && forall f :: f in st.files ==>
         if f in st.jobs[id].inputs || f in st.jobs[id].outputs then t.files[f].state in {Normal, Obsolete}
         else t.files[f] == st.files[f]
  }

  lemma EndIsJobGone(st: State, t: State, id: nat)
    requires id in st.jobs && JobFiles(st, st.jobs[id])
    requires t == AbortGc(st, id) || (CanDelete(st, id) && t == FinishGc(st, id))
    ensures JobGone(st, t, id)
  {}

  lemma JobGoneKeepsSeps(st: State, t: State, id: nat)
    requires SepsOk(st) && JobsApart(st) && JobGone(st, t, id) && JobFiles(st, st.jobs[id])
    ensures SepsOk(t)
  {
    forall i | i in st.seps ensures SameState(st, t, st.seps[i].file) {
      assert SepOk(st, st.seps[i]);
    }
    SameWorldKeepsSeps(st, t);
  }

  lemma JobGoneKeepsJobs(st: State, t: State, id: nat)
    requires JobsOk(st) && JobsApart(st) && JobGone(st, t, id)
    ensures JobsOk(t) && JobsApart(t)
  {
    assert JobOk(st, st.jobs[id]);
    forall a, f | a in st.jobs && a != id && (f in st.jobs[a].inputs || f in st.jobs[a].outputs) ensures SameState(st, t, f) {
      assert JobOk(st, st.jobs[a]);
    }
    OtherJobsKept(st, t, id);
  }

  lemma JobGoneKeepsOwned(st: State, t: State, id: nat)
    requires Owned(st) && JobGone(st, t, id)
    ensures Owned(t)
  {
    forall f | f in t.files ensures HasOwner(t, f) {
      if f !in st.jobs[id].inputs && f !in st.jobs[id].outputs { OwnerKept(st, t, f); }
    }
  }

  /** A job that stops early makes no file obsolete. */
  lemma AbortDeletesNothing(st: State, t: State, id: nat)
    requires id in st.jobs && JobFiles(st, st.jobs[id]) && t == AbortGc(st, id)
    ensures forall f :: f in t.files && t.files[f].state == Obsolete ==> f in st.files && st.files[f] == t.files[f]
  {}

  lemma AbortKeepsInv(st: State, t: State, id: nat)
    requires Inv(st) && id in st.jobs && t == AbortGc(st, id)
    ensures Inv(t)
  {
    assert JobOk(st, st.jobs[id]);
    EndIsJobGone(st, t, id);
    AbortDeletesNothing(st, t, id);
    JobGoneKeepsSeps(st, t, id);
    JobGoneKeepsJobs(st, t, id);
    JobGoneKeepsOwned(st, t, id);
    SameWorldKeepsBase(st, t);
  }

  /** Files that nothing refers to and nobody holds. */
  ghost predicate Forgotten(st: State, gone: set<nat>) {
    forall f :: f in gone ==>
      && f !in st.files && FileUnreferenced(st.hist, f)
      && (forall i :: i in st.seps ==> st.seps[i].file != f)
      && (forall a :: a in st.jobs ==> f !in st.jobs[a].inputs && f !in st.jobs[a].outputs)
  }

  lemma ForgettingKeepsBase(st: State, t: State, gone: set<nat>)
    requires Base(st) && Forgotten(st, gone) && t == st.(disk := st.disk - gone)
    ensures Base(t)
  {}

  lemma ForgettingKeepsSeps(st: State, t: State, gone: set<nat>)
    requires SepsOk(st) && Forgotten(st, gone) && t == st.(disk := st.disk - gone)
    ensures SepsOk(t)
  {
    forall i | i in t.seps ensures SepOk(t, t.seps[i]) { assert SepOk(st, st.seps[i]); }
  }

  lemma ForgettingKeepsJob(st: State, t: State, gone: set<nat>, j: GcJob)
    requires JobOk(st, j) && t == st.(disk := st.disk - gone)
    requires forall f :: f in gone ==> f !in j.inputs && f !in j.outputs
    ensures JobOk(t, j)
  {
    forall i | 0 <= i < |j.moves| ensures MoveOk(t, j, j.moves[i]) { assert MoveOk(st, j, j.moves[i]); }
  }

  lemma ForgettingKeepsInv(st: State, t: State, gone: set<nat>)
    requires Inv(st) && Forgotten(st, gone) && t == st.(disk := st.disk - gone)
    ensures Inv(t)
  {
    ForgettingKeepsBase(st, t, gone);
    ForgettingKeepsSeps(st, t, gone);
    forall a | a in t.jobs ensures JobOk(t, t.jobs[a]) { ForgettingKeepsJob(st, t, gone, st.jobs[a]); }
    forall f | f in t.files ensures HasOwner(t, f) { OwnerKept(st, t, f); }
  }

  lemma OutputsAreForgotten(st: State, t: State, id: nat, deleted: set<nat>)
    requires JobsOk(st) && JobsApart(st) && CanFail(st, id, deleted) && t == AbortGc(st, id)
    ensures Forgotten(t, deleted)
  {
    assert JobOk(st, st.jobs[id]);
    forall f, a | f in deleted && a in t.jobs ensures f !in t.jobs[a].inputs && f !in t.jobs[a].outputs {
      assert JobOk(st, st.jobs[a]);
    }
  }

  lemma FailKeepsInv(st: State, t: State, id: nat, deleted: set<nat>)
    requires Inv(st) && CanFail(st, id, deleted) && t == FailGc(st, id, deleted)
    ensures Inv(t)
  {
    var mid := AbortGc(st, id);
    AbortKeepsInv(st, mid, id);
    OutputsAreForgotten(st, mid, id, deleted);
    ForgettingKeepsInv(mid, t, deleted);
  }

  lemma FinishObsoletes(st: State, t: State, id: nat)
    requires CanDelete(st, id) && JobOk(st, st.jobs[id]) && ObsoleteOk(st) && t == FinishGc(st, id)
    ensures forall f :: f in t.files && t.files[f].state == Obsolete ==>
              t.files[f].obsoleteSeq <= st.last && FileUnseenFrom(st, t.files[f].obsoleteSeq, f)
  {
    forall f | f in t.files && t.files[f].state == Obsolete
      ensures t.files[f].obsoleteSeq <= st.last && FileUnseenFrom(st, t.files[f].obsoleteSeq, f)
    {
      if f !in st.jobs[id].inputs { assert st.files[f] == t.files[f]; }
    }
  }

  lemma FinishKeepsInv(st: State, t: State, id: nat)
    requires Inv(st) && CanDelete(st, id) && t == FinishGc(st, id)
    ensures Inv(t)
  {
    assert JobOk(st, st.jobs[id]);
    EndIsJobGone(st, t, id);
    FinishObsoletes(st, t, id);
    JobGoneKeepsSeps(st, t, id);
    JobGoneKeepsJobs(st, t, id);
    JobGoneKeepsOwned(st, t, id);
    SameWorldKeepsBase(st, t);
  }

  lemma PurgeKeepsSeps(st: State, t: State)
    requires SepsOk(st) && t == PurgeObsolete(st)
    ensures SepsOk(t)
  {
    forall i | i in st.seps ensures SameState(st, t, st.seps[i].file) { assert SepOk(st, st.seps[i]); }
    SameWorldKeepsSeps(st, t);
  }

  lemma PurgeKeepsJobs(st: State, t: State)
    requires JobsOk(st) && JobsApart(st) && t == PurgeObsolete(st)
    ensures JobsOk(t) && JobsApart(t)
  {
    forall a, f | a in st.jobs && (f in st.jobs[a].inputs || f in st.jobs[a].outputs) ensures SameState(st, t, f) {
      assert JobOk(st, st.jobs[a]);
    }
    SameWorldKeepsJobs(st, t);
  }

  /** The guard of the purge: an obsolete sequence below every snapshot means no reader is left. */
  lemma PurgeKeepsBase(st: State, t: State)
    requires Base(st) && t == PurgeObsolete(st)
    ensures Base(t)
  {
    forall v: nat, s: nat | IsView(t, v) && VisibleAt(t.hist, s, v) && t.hist[s].slot.Index?
      ensures t.hist[s].slot.loc.file in t.files
    {
      var f := t.hist[s].slot.loc.file;
      assert f in st.files;
    }
  }

  lemma PurgeKeepsInv(st: State, t: State)
    requires Inv(st) && t == PurgeObsolete(st)
    ensures Inv(t)
  {
    PurgeKeepsSeps(st, t);
    PurgeKeepsJobs(st, t);
    PurgeKeepsBase(st, t);
    forall f | f in t.files ensures HasOwner(t, f) { OwnerKept(st, t, f); }
  }

  // ---- every run ----

  lemma StartHasInv()
    ensures Inv(START)
  {}

  lemma ReaderStepKeepsInv(st: State, step: Step)
    requires Inv(st) && Enabled(st, step)
    requires step.UserPut? || step.UserDelete? || step.TakeSnapshot? || step.ReleaseSnapshot? || step.Compact?
    ensures Inv(Apply(st, step))
  {
    match step
    case UserPut(k, x) => UserWriteKeepsInv(st, Entry(k, Inline(x)));
    case UserDelete(k) => UserWriteKeepsInv(st, Entry(k, Tombstone));
    case TakeSnapshot => SnapshotKeepsInv(st);
    case ReleaseSnapshot(v) => ReleaseKeepsInv(st, v);
    case Compact(dropped) => DropKeepsInv(st, dropped);
  }

  lemma GcStepKeepsInv(st: State, step: Step)
    requires Inv(st) && Enabled(st, step) && (step.GcInstall? || step.GcRewrite? || step.GcReadSeq?)
    ensures Inv(Apply(st, step))
  {
    match step
    case GcInstall(id) => InstallOutputsKeepsInv(st, id);
    case GcRewrite(id) => RewriteKeepsInv(st, RewriteKey(st, id), id);
    case GcReadSeq(id) => ReadSeqKeepsInv(st, ReadObsoleteSeq(st, id), id);
  }

  lemma EndStepKeepsInv(st: State, step: Step)
    requires Inv(st) && Enabled(st, step) && (step.GcFinish? || step.GcAbort? || step.GcFail? || step.Purge?)
    ensures Inv(Apply(st, step))
  {
    match step
    case GcFinish(id) => FinishKeepsInv(st, FinishGc(st, id), id);
    case GcAbort(id) => AbortKeepsInv(st, AbortGc(st, id), id);
    case GcFail(id, deleted) => FailKeepsInv(st, FailGc(st, id, deleted), id, deleted);
    case Purge => PurgeKeepsInv(st, PurgeObsolete(st));
  }

  lemma SeparationStepKeepsInv(st: State, step: Step)
    requires Inv(st) && Enabled(st, step)
    requires step.SepBegin? || step.SepAdd? || step.SepInstall? || step.SepDone? || step.GcPick? || step.GcCheck?
    ensures Inv(Apply(st, step))
  {
    match step
    case SepBegin(id, flush, seqs) => BeginKeepsInv(st, id, flush, seqs);
    case SepAdd(id) => AddKeepsInv(st, id);
    case SepInstall(id) => InstallKeepsInv(st, id);
    case SepDone(id, touched) => CompleteKeepsInv(st, id, touched);
    case GcPick(id, inputs) => PickKeepsInv(st, id, inputs);
    case GcCheck(id, loc, roll) => CheckKeepsInv(st, id, loc, roll);
  }

  lemma StepKeepsInv(st: State, step: Step)
    requires Inv(st) && Enabled(st, step)
    ensures Inv(Apply(st, step))
  {
    if step.UserPut? || step.UserDelete? || step.TakeSnapshot? || step.ReleaseSnapshot? || step.Compact? {
      ReaderStepKeepsInv(st, step);
    } else if step.SepBegin? || step.SepAdd? || step.SepInstall? || step.SepDone? || step.GcPick? || step.GcCheck? {
      SeparationStepKeepsInv(st, step);
    } else if step.GcInstall? || step.GcRewrite? || step.GcReadSeq? {
      GcStepKeepsInv(st, step);
    } else {
      EndStepKeepsInv(st, step);
    }
  }

  lemma {:induction false} RunKeepsInv(st: State, steps: seq<Step>)
    requires Inv(st) && Legal(st, steps)
    ensures Inv(Run(st, steps))
    decreases |steps|
  {
    if steps != [] {
      StepKeepsInv(st, steps[0]);
      RunKeepsInv(Apply(st, steps[0]), steps[1..]);
    }
  }

  /** In every run, every index visible at the latest sequence or at a live snapshot names a known file. */
  lemma NoDanglingInAnyRun(steps: seq<Step>)
    requires Legal(START, steps)
    ensures NoDangling(Run(START, steps))
  {
    StartHasInv();
    RunKeepsInv(START, steps);
  }

  /** The file events of a step and the files they hit, as the code issues them. */
  ghost predicate TransitionsAllowed(st: State, step: Step)
    requires Enabled(st, step)
  {
    match step
    case SepDone(id, touched) =>
      if st.seps[id].flush then TransitAllowed(st.files, {st.seps[id].file} + touched, FlushCompleted)
      else TransitAllowed(st.files, {st.seps[id].file}, CompactionCompleted)
    case GcPick(_, inputs) => TransitAllowed(st.files, inputs, GCBegin)
    case GcFinish(id) =>
      var j := st.jobs[id];
      && TransitAllowed(st.files, j.inputs, Delete)
      && TransitAllowed(MarkObsolete(st.files, j.inputs, j.phase.obsoleteSeq), j.inputs + j.outputs, GCCompleted)
    case GcAbort(id) => TransitAllowed(st.files, st.jobs[id].inputs + st.jobs[id].outputs, GCCompleted)
    case GcFail(id, _) => TransitAllowed(st.files, st.jobs[id].inputs + st.jobs[id].outputs, GCCompleted)
    case _ => true
  }

  lemma CompletionIsAllowed(st: State, id: nat, touched: set<nat>)
    requires SepsOk(st) && Owned(st) && CanComplete(st, id, touched)
    ensures TransitAllowed(st.files, {st.seps[id].file}, CompactionCompleted)
    ensures TransitAllowed(st.files, {st.seps[id].file} + touched, FlushCompleted)
  {
    assert SepOk(st, st.seps[id]);
    forall f | f in touched && f in st.files ensures Allowed(st.files[f].state, FlushCompleted) { assert HasOwner(st, f); }
  }

  lemma EndIsAllowed(files: map<nat, Meta>, inputs: set<nat>, outputs: set<nat>, seqno: nat)
    requires forall f :: f in inputs ==> f in files && files[f].state == BeingGC
    requires forall f :: f in outputs && f in files ==> files[f].state == PendingGC
    ensures TransitAllowed(files, inputs, Delete)
    ensures TransitAllowed(MarkObsolete(files, inputs, seqno), inputs + outputs, GCCompleted)
    ensures TransitAllowed(files, inputs + outputs, GCCompleted)
  {}

  lemma EventsAreAllowed(st: State, step: Step)
    requires Inv(st) && Enabled(st, step)
    ensures TransitionsAllowed(st, step)
  {
    if step.SepDone? {
      CompletionIsAllowed(st, step.id, step.touched);
    } else if step.GcFinish? {
      assert JobOk(st, st.jobs[step.id]);
      EndIsAllowed(st.files, st.jobs[step.id].inputs, st.jobs[step.id].outputs, st.jobs[step.id].phase.obsoleteSeq);
    } else if step.GcAbort? || step.GcFail? {
      assert JobOk(st, st.jobs[step.id]);
      EndIsAllowed(st.files, st.jobs[step.id].inputs, st.jobs[step.id].outputs, 0);
    }
  }

  /** In every run: being collected means being an input of exactly one job in flight, no assertion of a
      state transition fails, a scan is never stuck, and the files a job deletes are all there and live. */
  lemma CollectionIsExclusive(steps: seq<Step>)
    requires Legal(START, steps)
    ensures var st := Run(START, steps);
            && (forall f :: f in st.files ==>
                  (st.files[f].state == BeingGC <==> exists id :: id in st.jobs && f in st.jobs[id].inputs))
            && (forall a, b, f :: a in st.jobs && b in st.jobs && f in st.jobs[a].inputs && f in st.jobs[b].inputs ==> a == b)
            && (forall id, f :: id in st.jobs && f in st.jobs[id].inputs ==> f in st.files && st.files[f].state != Obsolete)
            && (forall step :: Enabled(st, step) ==> TransitionsAllowed(st, step))
            && (forall id, loc :: CanScan(st, id, loc) ==> CanCheck(st, id, loc))
  {
    StartHasInv();
    RunKeepsInv(START, steps);
    var st := Run(START, steps);
    forall id, f | id in st.jobs && f in st.jobs[id].inputs ensures f in st.files && st.files[f].state == BeingGC {
      assert JobOk(st, st.jobs[id]);
    }
    forall f | f in st.files && st.files[f].state == BeingGC ensures exists id :: id in st.jobs && f in st.jobs[id].inputs {
      assert HasOwner(st, f);
    }
    forall step | Enabled(st, step) ensures TransitionsAllowed(st, step) { EventsAreAllowed(st, step); }
    forall id, loc | CanScan(st, id, loc) ensures CanCheck(st, id, loc) { ScannedIsOnDisk(st, id, loc); }
  }

  ghost predicate Relocates(j: GcJob, loc: Loc) {
    exists i :: 0 <= i < |j.moves| && j.moves[i].from == loc
  }

  lemma AppendRelocates(j: GcJob, j': GcJob, m: Move)
    requires j'.moves == j.moves + [m]
    ensures forall loc :: Relocates(j', loc) <==> Relocates(j, loc) || loc == m.from
  {
    forall loc ensures Relocates(j', loc) <==> Relocates(j, loc) || loc == m.from {
      assert j'.moves[|j.moves|] == m;
      assert forall i :: 0 <= i < |j.moves| ==> j'.moves[i] == j.moves[i];
    }
  }

  lemma UncheckedIsNotRelocated(st: State, j: GcJob, loc: Loc)
    requires JobMoves(st, j) && loc in j.todo
    ensures !Relocates(j, loc)
  {
    forall i | 0 <= i < |j.moves| ensures j.moves[i].from != loc { assert MoveOk(st, j, j.moves[i]); }
  }

  /** A check settles one record for good: it is relocated if it is live, discarded if not; no other record is touched. */
  lemma CheckSettles(st: State, t: State, id: nat, loc: Loc, roll: bool)
    requires CanScan(st, id, loc) && JobMoves(st, st.jobs[id]) && CanCheck(st, id, loc) && t == CheckRecord(st, id, loc, roll)
    ensures id in t.jobs && t.jobs[id].todo == st.jobs[id].todo - {loc} && !Relocates(st.jobs[id], loc)
    ensures forall l :: Relocates(t.jobs[id], l) <==> Relocates(st.jobs[id], l) || (l == loc && IsLive(st, loc))
  {
    UncheckedIsNotRelocated(st, st.jobs[id], loc);
    if IsLive(st, loc) {
      var n := |st.jobs[id].moves|;
      AppendRelocates(st.jobs[id], t.jobs[id], t.jobs[id].moves[n]);
    }
  }

  /**
   * In every run, each input record of a job is in one of three cases: not checked yet and not relocated;
   * relocated once, to a copy no other record shares, and out of sight once its index is written back;
   * or discarded, and out of sight.
   */
  lemma JobsAccountForRecords(steps: seq<Step>)
    requires Legal(START, steps)
    ensures var st := Run(START, steps);
            forall id :: id in st.jobs ==>
              var j := st.jobs[id];
              && (forall loc: Loc :: loc.file in j.inputs && OnDisk(st.disk, loc) ==>
                    if loc in j.todo then !Relocates(j, loc)
                    else PendingMove(j, loc) || Unseen(st.hist, st.last, loc))
              && (forall a, b :: 0 <= a < b < |j.moves| ==> j.moves[a].from != j.moves[b].from && j.moves[a].to != j.moves[b].to)
              && (forall i :: 0 <= i < |j.moves| ==> MoveOk(st, j, j.moves[i]))
              && (forall i :: 0 <= i < j.next ==> i < |j.moves| && Unseen(st.hist, st.last, j.moves[i].from))
  {
    StartHasInv();
    RunKeepsInv(START, steps);
    var st := Run(START, steps);
    forall id | id in st.jobs ensures JobOk(st, st.jobs[id]) {}
    forall id, i | id in st.jobs && 0 <= i < st.jobs[id].next
      ensures i < |st.jobs[id].moves| && Unseen(st.hist, st.last, st.jobs[id].moves[i].from)
    {
      WrittenBackIsUnseen(st, st.jobs[id], i);
    }
  }

  lemma WrittenBackIsUnseen(st: State, j: GcJob, i: nat)
    requires JobOk(st, j) && i < j.next
    ensures i < |j.moves| && Unseen(st.hist, st.last, j.moves[i].from)
  {
    assert MoveOk(st, j, j.moves[i]);
    assert !PendingMove(j, j.moves[i].from);
  }
}
