/** The invariant behind the lifetime protocol, step by step, and what it gives for every run. */
module LifetimeProof {
  import opened FileStates
  import opened Lifetime
  import opened Coding
  import Order

  // ---- the invariant ----

  ghost predicate WfHist(st: State) {
    forall s :: s in st.hist ==>
      && s <= st.last
      && (st.hist[s].slot.Index? ==>
            && OnDisk(st.disk, st.hist[s].slot.loc)
            && st.disk[st.hist[s].slot.loc.file][st.hist[s].slot.loc.rec].key == st.hist[s].key)
  }

  ghost predicate UniqueIndex(h: History) {
    forall s, t :: s in h && t in h && s != t && h[s].slot.Index? ==> h[s].slot != h[t].slot
  }

  ghost predicate WfDisk(st: State) {
    && (forall f :: f in st.disk ==> f < st.nextFile)
    && (forall f :: f in st.files ==> f in st.disk)
    && (forall v :: v in st.snaps ==> v <= st.last)
  }

  ghost predicate Unreferenced(h: History, loc: Loc) {
    forall s :: s in h ==> h[s].slot != Index(loc)
  }

  ghost predicate FileUnreferenced(h: History, f: nat) {
    forall s :: s in h && h[s].slot.Index? ==> h[s].slot.loc.file != f
  }

  /** No reader at `v` sees the record at `loc`. */
  ghost predicate Unseen(h: History, v: nat, loc: Loc) {
    forall s :: s in h && h[s].slot == Index(loc) ==> Newest(h, h[s].key, v) != Some(s)
  }

  /** No reader at or above `from` sees file `f`. */
  ghost predicate FileUnseenFrom(st: State, from: nat, f: nat) {
    forall v, s :: IsView(st, v) && from <= v && VisibleAt(st.hist, s, v) && st.hist[s].slot.Index? ==>
      st.hist[s].slot.loc.file != f
  }

  ghost predicate SepOk(st: State, sep: Separation) {
    && sep.file in st.disk && |st.disk[sep.file]| == |sep.seqs| && Order.Distinct(sep.seqs)
    && (forall s :: s in sep.seqs ==> s <= st.last)
    && (if sep.phase == Built then sep.file !in st.files
        else sep.file in st.files && st.files[sep.file].state == PendingLSM)
    && (sep.phase != Installed ==> FileUnreferenced(st.hist, sep.file))
    && (sep.phase != Installed ==> forall i :: 0 <= i < |sep.seqs| && sep.seqs[i] in st.hist ==>
          var r := st.disk[sep.file][i];
          st.hist[sep.seqs[i]] == Entry(r.key, Inline(r.value)))
  }

  ghost predicate SepsOk(st: State) {
    && (forall id :: id in st.seps ==> SepOk(st, st.seps[id]))
    && (forall a, b :: a in st.seps && b in st.seps && a != b ==> st.seps[a].file != st.seps[b].file)
    && (forall a, b, s {:trigger s in st.seps[a].seqs, s in st.seps[b].seqs} ::
          a in st.seps && b in st.seps && a != b && s in st.seps[a].seqs && s in st.seps[b].seqs ==>
          st.seps[a].phase == Installed || st.seps[b].phase == Installed)
  }

  ghost predicate MoveOk(st: State, j: GcJob, m: Move) {
    && m.from.file in j.inputs && OnDisk(st.disk, m.from) && m.from !in j.todo
    && m.to.file in j.outputs && OnDisk(st.disk, m.to)
    && st.disk[m.to.file][m.to.rec] == st.disk[m.from.file][m.from.rec]
    && m.key == st.disk[m.from.file][m.from.rec].key
  }

  ghost predicate PendingMove(j: GcJob, loc: Loc) {
    exists i :: j.next <= i < |j.moves| && j.moves[i].from == loc
  }

  ghost predicate JobFiles(st: State, j: GcJob) {
    && (forall f :: f in j.inputs ==> f in st.files && st.files[f].state == BeingGC)
    && (forall loc :: loc in j.todo ==> loc.file in j.inputs && OnDisk(st.disk, loc))
    && (forall f :: f in j.outputs ==> f in st.disk)
    && (j.current.Some? ==> j.current.value in j.outputs)
    && (if j.phase == Scan then j.next == 0 && forall f :: f in j.outputs ==> f !in st.files
        else j.todo == {} && forall f :: f in j.outputs ==> f in st.files && st.files[f].state == PendingGC)
    && j.next <= |j.moves|
    && (j.phase.Deleting? ==> j.next == |j.moves| && j.phase.obsoleteSeq <= st.last)
  }

  ghost predicate JobMoves(st: State, j: GcJob) {
    && (forall i :: 0 <= i < |j.moves| ==> MoveOk(st, j, j.moves[i]))
    && (forall a, b :: 0 <= a < b < |j.moves| ==> j.moves[a].from != j.moves[b].from && j.moves[a].to != j.moves[b].to)
    && (forall i :: j.next <= i < |j.moves| ==> Unreferenced(st.hist, j.moves[i].to))
    && (j.phase == Scan ==> forall f :: f in j.outputs ==> FileUnreferenced(st.hist, f))
  }

  /** Every input record is still to be checked, waits to be written back, or is out of sight. */
  ghost predicate JobProgress(st: State, j: GcJob) {
    && (forall loc: Loc :: loc.file in j.inputs && OnDisk(st.disk, loc) ==>
          loc in j.todo || PendingMove(j, loc) || Unseen(st.hist, st.last, loc))
    && (j.phase.Deleting? ==> forall f :: f in j.inputs ==> FileUnseenFrom(st, j.phase.obsoleteSeq, f))
  }

  ghost predicate JobOk(st: State, j: GcJob) {
    JobFiles(st, j) && JobMoves(st, j) && JobProgress(st, j)
  }

  ghost predicate JobsOk(st: State) {
    forall id :: id in st.jobs ==> JobOk(st, st.jobs[id])
  }

  ghost predicate JobsApart(st: State) {
    && (forall a, b, f {:trigger f in st.jobs[a].inputs, f in st.jobs[b].inputs} ::
          a in st.jobs && b in st.jobs && f in st.jobs[a].inputs && f in st.jobs[b].inputs ==> a == b)
    && (forall a, b, f {:trigger f in st.jobs[a].outputs, f in st.jobs[b].outputs} ::
          a in st.jobs && b in st.jobs && f in st.jobs[a].outputs && f in st.jobs[b].outputs ==> a == b)
    && (forall a, b {:trigger st.seps[b].file in st.jobs[a].outputs} ::
          a in st.jobs && b in st.seps ==> st.seps[b].file !in st.jobs[a].outputs)
  }

  ghost predicate ObsoleteOk(st: State) {
    forall f :: f in st.files && st.files[f].state == Obsolete ==>
      st.files[f].obsoleteSeq <= st.last && FileUnseenFrom(st, st.files[f].obsoleteSeq, f)
  }

  /** A state other than Normal and Obsolete always has its owner. */
  ghost predicate HasOwner(st: State, f: nat)
    requires f in st.files
  {
    match st.files[f].state
    case Normal => true
    case Obsolete => true
    case PendingLSM => exists id :: id in st.seps && st.seps[id].file == f && st.seps[id].phase != Built
    case BeingGC => exists id :: id in st.jobs && f in st.jobs[id].inputs
    case PendingGC => exists id :: id in st.jobs && f in st.jobs[id].outputs
    case _ => false
  }

  ghost predicate Owned(st: State) {
    forall f :: f in st.files ==> HasOwner(st, f)
  }

  ghost predicate Inv(st: State) {
    && WfHist(st) && UniqueIndex(st.hist) && WfDisk(st)
    && SepsOk(st) && JobsOk(st) && JobsApart(st)
    && ObsoleteOk(st) && Owned(st) && NoDangling(st)
  }

  // ---- facts about the newest entry ----

  lemma {:induction false} NewestFrame(h: History, g: History, k: Key, v: nat)
    requires forall s :: s <= v ==> (s in h <==> s in g) && (s in h ==> h[s].key == g[s].key)
    ensures Newest(g, k, v) == Newest(h, k, v)
  {
    if v > 0 { NewestFrame(h, g, k, v - 1); }
  }

  lemma NewestPush(h: History, last: nat, e: Entry)
    requires forall s :: s in h ==> s <= last
    ensures forall k, v: nat :: v <= last ==> Newest(h[last + 1 := e], k, v) == Newest(h, k, v)
    ensures Newest(h[last + 1 := e], e.key, last + 1) == Some(last + 1)
    ensures forall k :: k != e.key ==> Newest(h[last + 1 := e], k, last + 1) == Newest(h, k, last)
  {
    var g := h[last + 1 := e];
    forall k, v: nat | v <= last ensures Newest(g, k, v) == Newest(h, k, v) {
      NewestFrame(h, g, k, v);
    }
    forall k | k != e.key ensures Newest(g, k, last + 1) == Newest(h, k, last) {
      NewestFrame(h, g, k, last);
    }
  }

  lemma NewestSameKeys(h: History, g: History)
    requires h.Keys == g.Keys && forall s :: s in h ==> h[s].key == g[s].key
    ensures forall k, v: nat :: Newest(g, k, v) == Newest(h, k, v)
  {
    forall k, v: nat ensures Newest(g, k, v) == Newest(h, k, v) {
      NewestFrame(h, g, k, v);
    }
  }

  // ---- steps that touch only the history and the views ----

  /** `t` keeps entries of `st`, drops some, and adds at most entries above `st.last` that are no index. */
  ghost predicate HistoryStep(st: State, t: State) {
    && t.files == st.files && t.disk == st.disk && t.nextFile == st.nextFile && t.seps == st.seps && t.jobs == st.jobs
    && st.last <= t.last
    && (forall v :: v in t.snaps ==> v <= t.last)
    && (forall s :: s in t.hist ==>
          s <= t.last && if s in st.hist then t.hist[s] == st.hist[s] else s > st.last && !t.hist[s].slot.Index?)
    && SeesLess(st, t)
  }

  /** An index seen in `t` was seen in `st`, by the same reader or by a reader of the latest sequence. */
  ghost predicate SeesLess(st: State, t: State) {
    && (forall v, s :: IsView(t, v) && VisibleAt(t.hist, s, v) && t.hist[s].slot.Index? ==>
          && s in st.hist && st.hist[s] == t.hist[s]
          && ((IsView(st, v) && VisibleAt(st.hist, s, v)) || VisibleAt(st.hist, s, st.last)))
    && (forall s :: VisibleAt(t.hist, s, t.last) && t.hist[s].slot.Index? ==> VisibleAt(st.hist, s, st.last))
  }

  lemma SeesLessKeepsUnseen(st: State, t: State, from: nat, f: nat)
    requires SeesLess(st, t) && from <= st.last && FileUnseenFrom(st, from, f)
    ensures FileUnseenFrom(t, from, f)
  {
    assert IsView(st, st.last);
  }

  lemma HistoryStepKeepsSeps(st: State, t: State)
    requires SepsOk(st) && HistoryStep(st, t)
    ensures SepsOk(t)
  {
    forall id | id in t.seps ensures SepOk(t, t.seps[id]) {
      var sep := st.seps[id];
      assert SepOk(st, sep);
      forall i | 0 <= i < |sep.seqs| && sep.phase != Installed && sep.seqs[i] in t.hist
        ensures t.hist[sep.seqs[i]] == Entry(t.disk[sep.file][i].key, Inline(t.disk[sep.file][i].value))
      {
        assert sep.seqs[i] in sep.seqs;
      }
    }
  }

  lemma HistoryStepKeepsJob(st: State, t: State, j: GcJob)
    requires JobOk(st, j) && HistoryStep(st, t)
    ensures JobOk(t, j)
  {
    forall i | 0 <= i < |j.moves| ensures MoveOk(t, j, j.moves[i]) {
      assert MoveOk(st, j, j.moves[i]);
    }
    forall loc: Loc | loc.file in j.inputs && OnDisk(t.disk, loc) && Unseen(st.hist, st.last, loc)
      ensures Unseen(t.hist, t.last, loc)
    {
      forall s | s in t.hist && t.hist[s].slot == Index(loc) ensures Newest(t.hist, t.hist[s].key, t.last) != Some(s) {
        if Newest(t.hist, t.hist[s].key, t.last) == Some(s) {
          assert VisibleAt(t.hist, s, t.last);
        }
      }
    }
    if j.phase.Deleting? {
      forall f | f in j.inputs ensures FileUnseenFrom(t, j.phase.obsoleteSeq, f) {
        SeesLessKeepsUnseen(st, t, j.phase.obsoleteSeq, f);
      }
    }
  }

  lemma HistoryStepKeepsViews(st: State, t: State)
    requires ObsoleteOk(st) && Owned(st) && NoDangling(st) && HistoryStep(st, t)
    ensures ObsoleteOk(t) && Owned(t) && NoDangling(t)
  {
    forall f | f in t.files && t.files[f].state == Obsolete
      ensures FileUnseenFrom(t, t.files[f].obsoleteSeq, f)
    {
      SeesLessKeepsUnseen(st, t, t.files[f].obsoleteSeq, f);
    }
    assert IsView(st, st.last);
  }

  lemma HistoryStepKeepsInv(st: State, t: State)
    requires Inv(st) && HistoryStep(st, t)
    ensures Inv(t)
  {
    HistoryStepKeepsSeps(st, t);
    forall id | id in t.jobs ensures JobOk(t, t.jobs[id]) {
      HistoryStepKeepsJob(st, t, st.jobs[id]);
    }
    HistoryStepKeepsViews(st, t);
  }

  lemma PushSeesLess(st: State, t: State, e: Entry)
    requires WfHist(st) && WfDisk(st)
    requires t.hist == st.hist[st.last + 1 := e] && t.last == st.last + 1 && t.snaps == st.snaps
    ensures forall v, s :: IsView(t, v) && VisibleAt(t.hist, s, v) && s != t.last ==>
              s in st.hist && st.hist[s] == t.hist[s] && ((IsView(st, v) && VisibleAt(st.hist, s, v)) || VisibleAt(st.hist, s, st.last))
    ensures forall s :: VisibleAt(t.hist, s, t.last) && s != t.last ==> VisibleAt(st.hist, s, st.last)
  {
    NewestPush(st.hist, st.last, e);
    forall v: nat, s: nat | IsView(t, v) && VisibleAt(t.hist, s, v) && s != t.last
      ensures s in st.hist && st.hist[s] == t.hist[s] && ((IsView(st, v) && VisibleAt(st.hist, s, v)) || VisibleAt(st.hist, s, st.last))
      ensures v == t.last ==> VisibleAt(st.hist, s, st.last)
    {
      var k := t.hist[s].key;
      if v == t.last {
        assert Newest(t.hist, e.key, t.last) == Some(t.last);
        assert Newest(t.hist, k, t.last) == Newest(st.hist, k, st.last);
      } else {
        assert v <= st.last;
        assert Newest(t.hist, k, v) == Newest(st.hist, k, v);
      }
    }
  }

  lemma UserWriteIsHistoryStep(st: State, e: Entry)
    requires WfHist(st) && WfDisk(st) && !e.slot.Index?
    ensures HistoryStep(st, UserWrite(st, e))
  {
    PushSeesLess(st, UserWrite(st, e), e);
  }

  lemma SnapshotsAreHistorySteps(st: State, v: nat)
    requires WfHist(st) && WfDisk(st)
    ensures HistoryStep(st, Snapshot(st)) && HistoryStep(st, Release(st, v))
  {
    assert forall v :: IsView(Snapshot(st), v) ==> IsView(st, v);
    assert forall w :: IsView(Release(st, v), w) ==> IsView(st, w);
  }

  lemma DropIsHistoryStep(st: State, dropped: set<nat>)
    requires WfHist(st) && WfDisk(st) && DropIsInvisible(st, dropped)
    ensures HistoryStep(st, DropEntries(st, dropped))
  {
    var t := DropEntries(st, dropped);
    assert IsView(st, st.last);
    assert forall v, s :: IsView(t, v) && VisibleAt(t.hist, s, v) ==> VisibleAt(st.hist, s, v);
  }

  lemma UserWriteKeepsInv(st: State, e: Entry)
    requires Inv(st) && !e.slot.Index?
    ensures Inv(UserWrite(st, e))
  {
    UserWriteIsHistoryStep(st, e);
    HistoryStepKeepsInv(st, UserWrite(st, e));
  }

  lemma SnapshotKeepsInv(st: State)
    requires Inv(st)
    ensures Inv(Snapshot(st))
  {
    SnapshotsAreHistorySteps(st, 0);
    HistoryStepKeepsInv(st, Snapshot(st));
  }

  lemma ReleaseKeepsInv(st: State, v: nat)
    requires Inv(st)
    ensures Inv(Release(st, v))
  {
    SnapshotsAreHistorySteps(st, v);
    HistoryStepKeepsInv(st, Release(st, v));
  }

  lemma DropKeepsInv(st: State, dropped: set<nat>)
    requires Inv(st) && DropIsInvisible(st, dropped)
    ensures Inv(DropEntries(st, dropped))
  {
    DropIsHistoryStep(st, dropped);
    HistoryStepKeepsInv(st, DropEntries(st, dropped));
  }

  // ---- separation: a flush or compaction moves values to a new blob file ----

  /** `t` has new or longer files on disk, but no more than that. */
  ghost predicate GrowDisk(st: State, t: State) {
    && t.hist == st.hist && t.last == st.last && t.snaps == st.snaps && t.files == st.files
    && (forall f :: f in st.disk ==> f in t.disk && st.disk[f] <= t.disk[f])
    && (forall f :: f in t.disk ==> f < t.nextFile)
  }

  ghost predicate Base(st: State) {
    WfHist(st) && UniqueIndex(st.hist) && WfDisk(st) && ObsoleteOk(st) && NoDangling(st)
  }

  lemma GrowDiskKeepsBase(st: State, t: State)
    requires Base(st) && GrowDisk(st, t)
    ensures Base(t)
  {}

  ghost predicate KeepsOwner(st: State, t: State, f: nat) {
    && (forall id :: id in st.seps && st.seps[id].file == f && st.seps[id].phase != Built ==>
          id in t.seps && t.seps[id].file == f && t.seps[id].phase != Built)
    && (forall id :: id in st.jobs ==>
          && (f in st.jobs[id].inputs ==> id in t.jobs && f in t.jobs[id].inputs)
          && (f in st.jobs[id].outputs ==> id in t.jobs && f in t.jobs[id].outputs))
  }

  lemma OwnerKept(st: State, t: State, f: nat)
    requires f in st.files && f in t.files && t.files[f].state == st.files[f].state
    requires HasOwner(st, f) && KeepsOwner(st, t, f)
    ensures HasOwner(t, f)
  {
    match st.files[f].state
    case PendingLSM =>
      var id :| id in st.seps && st.seps[id].file == f && st.seps[id].phase != Built;
      assert id in t.seps;
    case BeingGC =>
      var id :| id in st.jobs && f in st.jobs[id].inputs;
      assert id in t.jobs;
    case PendingGC =>
      var id :| id in st.jobs && f in st.jobs[id].outputs;
      assert id in t.jobs;
    case _ =>
  }

  lemma OwnersKept(st: State, t: State)
    requires Owned(st) && t.files == st.files && forall f :: f in st.files ==> KeepsOwner(st, t, f)
    ensures Owned(t)
  {
    forall f | f in t.files ensures HasOwner(t, f) { OwnerKept(st, t, f); }
  }

  lemma GrowDiskKeepsSep(st: State, t: State, sep: Separation)
    requires SepOk(st, sep) && GrowDisk(st, t) && t.disk[sep.file] == st.disk[sep.file]
    ensures SepOk(t, sep)
  {}

  lemma GrowDiskKeepsJob(st: State, t: State, j: GcJob)
    requires WfDisk(st) && JobOk(st, j) && GrowDisk(st, t)
    requires forall f :: f in j.inputs && f in st.disk ==> t.disk[f] == st.disk[f]
    ensures JobOk(t, j)
  {
    forall i | 0 <= i < |j.moves| ensures MoveOk(t, j, j.moves[i]) { assert MoveOk(st, j, j.moves[i]); }
  }

  /** What beginning a separation changes besides the separations themselves. */
  ghost predicate Begun(st: State, t: State, id: nat) {
    && GrowDisk(st, t) && t.jobs == st.jobs && (forall f :: KeepsOwner(st, t, f))
    && (forall f :: f in st.files ==> f in st.disk && t.disk[f] == st.disk[f])
    && id !in st.seps && st.nextFile !in st.disk
    && t.seps.Keys == st.seps.Keys + {id} && t.seps[id].file == st.nextFile && (forall b :: b in st.seps ==> t.seps[b] == st.seps[b])
  }

  lemma BeginIsBegun(st: State, t: State, id: nat, flush: bool, seqs: seq<nat>)
    requires WfDisk(st) && CanBegin(st, id, seqs) && t == Begin(st, id, flush, seqs)
    ensures Begun(st, t, id)
  {}

  lemma BegunSepOk(st: State, t: State, id: nat, flush: bool, seqs: seq<nat>)
    requires WfHist(st) && WfDisk(st) && CanBegin(st, id, seqs) && t == Begin(st, id, flush, seqs)
    ensures SepOk(t, t.seps[id])
  {
    assert forall i :: 0 <= i < |seqs| ==> seqs[i] in seqs;
  }

  lemma BeginKeepsSeps(st: State, t: State, id: nat, flush: bool, seqs: seq<nat>)
    requires WfHist(st) && WfDisk(st) && SepsOk(st) && CanBegin(st, id, seqs)
    requires t == Begin(st, id, flush, seqs) && GrowDisk(st, t)
    ensures SepsOk(t)
  {
    BegunSepOk(st, t, id, flush, seqs);
    forall i | i in st.seps ensures SepOk(t, t.seps[i]) {
      assert SepOk(st, st.seps[i]);
      GrowDiskKeepsSep(st, t, st.seps[i]);
    }
    forall a, s | a in st.seps && s in st.seps[a].seqs && s in seqs ensures st.seps[a].phase == Installed {
      assert !InFlight(st, s);
    }
  }

  lemma GrowDiskKeepsJobs(st: State, t: State)
    requires WfDisk(st) && JobsOk(st) && GrowDisk(st, t) && t.jobs == st.jobs
    requires forall f :: f in st.files ==> t.disk[f] == st.disk[f]
    ensures JobsOk(t)
  {
    forall i | i in t.jobs ensures JobOk(t, t.jobs[i]) {
      GrowDiskKeepsJob(st, t, st.jobs[i]);
    }
  }

  lemma BeginKeepsApart(st: State, t: State, id: nat, file: nat)
    requires JobsApart(st) && JobsOk(st) && t.jobs == st.jobs && id !in st.seps && file !in st.disk
    requires t.seps.Keys == st.seps.Keys + {id} && t.seps[id].file == file && forall b :: b in st.seps ==> t.seps[b] == st.seps[b]
    ensures JobsApart(t)
  {
    forall a | a in st.jobs ensures file !in st.jobs[a].outputs { assert JobOk(st, st.jobs[a]); }
  }

  lemma BegunKeepsInv(st: State, t: State, id: nat)
    requires Inv(st) && SepsOk(t) && Begun(st, t, id)
    ensures Inv(t)
  {
    GrowDiskKeepsJobs(st, t);
    GrowDiskKeepsBase(st, t);
    OwnersKept(st, t);
    BeginKeepsApart(st, t, id, st.nextFile);
  }

  lemma BeginKeepsInv(st: State, id: nat, flush: bool, seqs: seq<nat>)
    requires Inv(st) && CanBegin(st, id, seqs)
    ensures Inv(Begin(st, id, flush, seqs))
  {
    var t := Begin(st, id, flush, seqs);
    BeginIsBegun(st, t, id, flush, seqs);
    BeginKeepsSeps(st, t, id, flush, seqs);
    BegunKeepsInv(st, t, id);
  }

  // ---- steps that leave the history and the disk alone ----

  ghost predicate SameWorld(st: State, t: State) {
    t.hist == st.hist && t.last == st.last && t.snaps == st.snaps && t.disk == st.disk && t.nextFile == st.nextFile
  }

  lemma SameWorldKeepsBase(st: State, t: State)
    requires Base(st) && SameWorld(st, t)
    requires forall f :: f in t.files ==> f in t.disk
    requires forall f :: f in st.files ==> f in t.files
    requires forall f :: f in t.files && t.files[f].state == Obsolete ==>
               t.files[f].obsoleteSeq <= st.last && FileUnseenFrom(st, t.files[f].obsoleteSeq, f)
    ensures Base(t)
  {}

  ghost predicate SameState(st: State, t: State, f: nat) {
    (f in t.files <==> f in st.files) && (f in st.files ==> t.files[f].state == st.files[f].state)
  }

  lemma SameWorldKeepsSep(st: State, t: State, sep: Separation)
    requires SepOk(st, sep) && SameWorld(st, t) && SameState(st, t, sep.file)
    ensures SepOk(t, sep)
  {}

  lemma SameWorldKeepsJob(st: State, t: State, j: GcJob)
    requires JobOk(st, j) && SameWorld(st, t)
    requires forall f :: f in j.inputs || f in j.outputs ==> SameState(st, t, f)
    ensures JobOk(t, j)
  {
    forall f | f in j.inputs ensures f in t.files && t.files[f].state == BeingGC { assert SameState(st, t, f); }
    forall f | f in j.outputs ensures SameState(st, t, f) {}
    forall i | 0 <= i < |j.moves| ensures MoveOk(t, j, j.moves[i]) { assert MoveOk(st, j, j.moves[i]); }
  }

  lemma SameWorldKeepsJobs(st: State, t: State)
    requires JobsOk(st) && SameWorld(st, t) && t.jobs == st.jobs
    requires forall id, f :: id in st.jobs && (f in st.jobs[id].inputs || f in st.jobs[id].outputs) ==> SameState(st, t, f)
    ensures JobsOk(t)
  {
    forall i | i in t.jobs ensures JobOk(t, t.jobs[i]) {
      SameWorldKeepsJob(st, t, st.jobs[i]);
    }
  }

  lemma AddKeepsSeps(st: State, t: State, id: nat)
    requires SepsOk(st) && InPhase(st, id, Built) && t == AddSeparated(st, id)
    ensures SepsOk(t)
  {
    assert SepOk(st, st.seps[id]);
    assert SepOk(t, t.seps[id]);
    forall i | i in st.seps && i != id ensures SepOk(t, t.seps[i]) {
      assert SepOk(st, st.seps[i]);
      SameWorldKeepsSep(st, t, st.seps[i]);
    }
  }

  lemma AddKeepsJobStates(st: State, t: State, id: nat, j: GcJob, f: nat)
    requires InPhase(st, id, Built) && t == AddSeparated(st, id) && st.seps[id].file !in st.files
    requires JobOk(st, j) && st.seps[id].file !in j.outputs && (f in j.inputs || f in j.outputs)
    ensures SameState(st, t, f)
  {}

  lemma AddKeepsJobs(st: State, t: State, id: nat)
    requires SepsOk(st) && JobsOk(st) && JobsApart(st) && InPhase(st, id, Built) && t == AddSeparated(st, id)
    ensures JobsOk(t)
  {
    assert SepOk(st, st.seps[id]);
    forall a, f | a in st.jobs && (f in st.jobs[a].inputs || f in st.jobs[a].outputs) ensures SameState(st, t, f) {
      AddKeepsJobStates(st, t, id, st.jobs[a], f);
    }
    SameWorldKeepsJobs(st, t);
  }

  lemma AddKeepsApart(st: State, t: State, id: nat)
    requires JobsApart(st) && InPhase(st, id, Built) && t == AddSeparated(st, id)
    ensures JobsApart(t)
  {}

  lemma AddKeepsOwned(st: State, t: State, id: nat)
    requires Owned(st) && InPhase(st, id, Built) && t == AddSeparated(st, id) && st.seps[id].file !in st.files
    ensures Owned(t)
  {
    forall f | f in t.files ensures HasOwner(t, f) {
      if f in st.files {
        OwnerKept(st, t, f);
      } else {
        assert id in t.seps && t.seps[id].file == f;
      }
    }
  }

  lemma AddKeepsBase(st: State, t: State, id: nat)
    requires Base(st) && InPhase(st, id, Built) && t == AddSeparated(st, id) && st.seps[id].file in st.disk
    ensures Base(t)
  {
    SameWorldKeepsBase(st, t);
  }

  lemma AddKeepsInv(st: State, id: nat)
    requires Inv(st) && InPhase(st, id, Built)
    ensures Inv(AddSeparated(st, id))
  {
    var t := AddSeparated(st, id);
    assert SepOk(st, st.seps[id]);
    AddKeepsSeps(st, t, id);
    AddKeepsJobs(st, t, id);
    AddKeepsApart(st, t, id);
    AddKeepsBase(st, t, id);
    AddKeepsOwned(st, t, id);
  }

  /** What installing an SST does to the history: separated values become indexes of `file`. */
  ghost predicate InstallStep(st: State, t: State, file: nat) {
    && t.last == st.last && t.snaps == st.snaps && t.files == st.files && t.disk == st.disk && t.nextFile == st.nextFile
    && t.hist.Keys == st.hist.Keys
    && (forall s :: s in st.hist ==>
          && t.hist[s].key == st.hist[s].key
          && (t.hist[s] == st.hist[s] || (st.hist[s].slot.Inline? && t.hist[s].slot.Index? && t.hist[s].slot.loc.file == file)))
    && forall k, v: nat :: Newest(t.hist, k, v) == Newest(st.hist, k, v)
  }

  lemma InstallIsInstallStep(st: State, t: State, id: nat)
    requires InPhase(st, id, Added) && SepOk(st, st.seps[id]) && t == InstallSeparated(st, id)
    ensures InstallStep(st, t, st.seps[id].file)
  {
    var sep := st.seps[id];
    forall s | s in st.hist && s in sep.seqs ensures st.hist[s].slot.Inline? {
      assert sep.seqs[Position(sep.seqs, s)] in st.hist;
    }
    NewestSameKeys(st.hist, t.hist);
  }

  lemma InstallKeepsHist(st: State, t: State, id: nat)
    requires WfHist(st) && UniqueIndex(st.hist) && InPhase(st, id, Added) && SepOk(st, st.seps[id]) && t == InstallSeparated(st, id)
    ensures WfHist(t) && UniqueIndex(t.hist)
  {
    var sep := st.seps[id];
    forall s | s in t.hist && s in sep.seqs
      ensures OnDisk(t.disk, t.hist[s].slot.loc) && t.disk[t.hist[s].slot.loc.file][t.hist[s].slot.loc.rec].key == t.hist[s].key
    {
      assert sep.seqs[Position(sep.seqs, s)] in st.hist;
    }
    forall s, r | s in t.hist && r in t.hist && s != r && t.hist[s].slot.Index? ensures t.hist[s].slot != t.hist[r].slot {
      if s in sep.seqs && r in sep.seqs {
        assert sep.seqs[Position(sep.seqs, s)] != sep.seqs[Position(sep.seqs, r)];
      } else if r in sep.seqs {
        assert st.hist[s].slot.loc.file != sep.file;
      } else if s in sep.seqs && t.hist[r].slot.Index? {
        assert st.hist[r].slot.loc.file != sep.file;
      }
    }
  }

  lemma InstallStepKeepsUnseen(st: State, t: State, file: nat, from: nat, f: nat)
    requires InstallStep(st, t, file) && f != file && FileUnseenFrom(st, from, f)
    ensures FileUnseenFrom(t, from, f)
  {
    forall v: nat, s: nat | IsView(t, v) && from <= v && VisibleAt(t.hist, s, v) && t.hist[s].slot.Index?
      ensures t.hist[s].slot.loc.file != f
    {
      if t.hist[s] == st.hist[s] { assert VisibleAt(st.hist, s, v); }
    }
  }

  lemma InstallStepKeepsViews(st: State, t: State, file: nat)
    requires ObsoleteOk(st) && NoDangling(st) && WfDisk(st) && InstallStep(st, t, file)
    requires file in st.files && st.files[file].state != Obsolete
    ensures ObsoleteOk(t) && NoDangling(t) && WfDisk(t)
  {
    forall f | f in t.files && t.files[f].state == Obsolete ensures FileUnseenFrom(t, t.files[f].obsoleteSeq, f) {
      InstallStepKeepsUnseen(st, t, file, t.files[f].obsoleteSeq, f);
    }
    forall v: nat, s: nat | IsView(t, v) && VisibleAt(t.hist, s, v) && t.hist[s].slot.Index?
      ensures t.hist[s].slot.loc.file in t.files
    {
      if t.hist[s] == st.hist[s] { assert VisibleAt(st.hist, s, v); }
    }
  }

  lemma InstallStepKeepsJob(st: State, t: State, file: nat, j: GcJob)
    requires JobOk(st, j) && InstallStep(st, t, file)
    requires file !in j.inputs && file !in j.outputs
    ensures JobOk(t, j)
  {
    forall i | 0 <= i < |j.moves| ensures MoveOk(t, j, j.moves[i]) { assert MoveOk(st, j, j.moves[i]); }
    if j.phase.Deleting? {
      forall f | f in j.inputs ensures FileUnseenFrom(t, j.phase.obsoleteSeq, f) {
        InstallStepKeepsUnseen(st, t, file, j.phase.obsoleteSeq, f);
      }
    }
  }

  lemma InstallKeepsSeps(st: State, t: State, id: nat)
    requires SepsOk(st) && InPhase(st, id, Added) && t == InstallSeparated(st, id) && InstallStep(st, t, st.seps[id].file)
    ensures SepsOk(t)
  {
    assert SepOk(st, st.seps[id]);
    assert SepOk(t, t.seps[id]);
    forall i | i in st.seps && i != id ensures SepOk(t, t.seps[i]) {
      var sep := st.seps[i];
      assert SepOk(st, sep);
      forall n | 0 <= n < |sep.seqs| && sep.phase != Installed && sep.seqs[n] in t.hist
        ensures t.hist[sep.seqs[n]] == st.hist[sep.seqs[n]]
      {
        assert sep.seqs[n] in sep.seqs;
      }
    }
  }

  lemma InstallKeepsJobs(st: State, t: State, id: nat)
    requires JobsOk(st) && JobsApart(st) && InPhase(st, id, Added) && t == InstallSeparated(st, id)
    requires SepOk(st, st.seps[id]) && InstallStep(st, t, st.seps[id].file)
    ensures JobsOk(t) && JobsApart(t)
  {
    var file := st.seps[id].file;
    forall i | i in t.jobs ensures JobOk(t, t.jobs[i]) {
      assert file !in st.jobs[i].inputs;
      InstallStepKeepsJob(st, t, file, st.jobs[i]);
    }
  }

  lemma InstallKeepsOwned(st: State, t: State, id: nat)
    requires Owned(st) && InPhase(st, id, Added) && t == InstallSeparated(st, id)
    ensures Owned(t)
  {
    OwnersKept(st, t);
  }

  lemma InstallKeepsInv(st: State, id: nat)
    requires Inv(st) && InPhase(st, id, Added)
    ensures Inv(InstallSeparated(st, id))
  {
    var t := InstallSeparated(st, id);
    assert SepOk(st, st.seps[id]);
    InstallIsInstallStep(st, t, id);
    InstallKeepsHist(st, t, id);
    InstallStepKeepsViews(st, t, st.seps[id].file);
    InstallKeepsSeps(st, t, id);
    InstallKeepsJobs(st, t, id);
    InstallKeepsOwned(st, t, id);
  }

  /** Of all the files a completion touches, only the separation's own output changes state. */
  lemma CompleteFiles(st: State, t: State, id: nat, touched: set<nat>)
    requires SepsOk(st) && Owned(st) && CanComplete(st, id, touched) && t == Complete(st, id, touched)
    ensures SameWorld(st, t) && t.files.Keys == st.files.Keys
    ensures st.seps[id].file in t.files && t.files[st.seps[id].file].state == Normal
    ensures forall f :: f in st.files && f != st.seps[id].file ==> t.files[f] == st.files[f]
  {
    assert SepOk(st, st.seps[id]);
    forall f | f in st.files && f != st.seps[id].file ensures t.files[f] == st.files[f] {
      assert HasOwner(st, f);
    }
  }

  lemma CompleteKeepsSeps(st: State, t: State, id: nat)
    requires SepsOk(st) && id in st.seps && t.seps == st.seps - {id} && SameWorld(st, t)
    requires forall f :: f != st.seps[id].file ==> SameState(st, t, f)
    ensures SepsOk(t)
  {
    forall i | i in t.seps ensures SepOk(t, t.seps[i]) {
      assert SepOk(st, st.seps[i]);
      SameWorldKeepsSep(st, t, st.seps[i]);
    }
  }

  lemma CompleteKeepsJobs(st: State, t: State, id: nat)
    requires JobsOk(st) && JobsApart(st) && id in st.seps && SepOk(st, st.seps[id]) && st.seps[id].phase == Installed
    requires t.seps == st.seps - {id} && t.jobs == st.jobs && SameWorld(st, t)
    requires forall f :: f != st.seps[id].file ==> SameState(st, t, f)
    ensures JobsOk(t) && JobsApart(t)
  {
    forall a, f | a in st.jobs && (f in st.jobs[a].inputs || f in st.jobs[a].outputs) ensures SameState(st, t, f) {
      assert JobOk(st, st.jobs[a]);
    }
    SameWorldKeepsJobs(st, t);
  }

  lemma CompleteKeepsOwned(st: State, t: State, id: nat)
    requires Owned(st) && id in st.seps && t.seps == st.seps - {id} && t.jobs == st.jobs && t.files.Keys == st.files.Keys
    requires st.seps[id].file in t.files ==> t.files[st.seps[id].file].state == Normal
    requires forall f :: f in st.files && f != st.seps[id].file ==> t.files[f] == st.files[f]
    ensures Owned(t)
  {
    forall f | f in t.files && f != st.seps[id].file ensures HasOwner(t, f) {
      OwnerKept(st, t, f);
    }
  }

  lemma CompleteKeepsBase(st: State, t: State, id: nat)
    requires Base(st) && id in st.seps && SameWorld(st, t) && t.files.Keys == st.files.Keys
    requires st.seps[id].file in t.files ==> t.files[st.seps[id].file].state == Normal
    requires forall f :: f in st.files && f != st.seps[id].file ==> t.files[f] == st.files[f]
    ensures Base(t)
  {
    SameWorldKeepsBase(st, t);
  }

  /** Only the separation's own output changes state. */
  ghost predicate Completed(st: State, t: State, id: nat) {
    && id in st.seps && SepOk(st, st.seps[id]) && st.seps[id].phase == Installed
    && SameWorld(st, t) && t.files.Keys == st.files.Keys && t.seps == st.seps - {id} && t.jobs == st.jobs
    && st.seps[id].file in t.files && t.files[st.seps[id].file].state == Normal
    && (forall f :: f in st.files && f != st.seps[id].file ==> t.files[f] == st.files[f])
  }

  lemma CompletedKeepsInv(st: State, t: State, id: nat)
    requires Inv(st) && Completed(st, t, id)
    ensures Inv(t)
  {
    CompleteKeepsSeps(st, t, id);
    CompleteKeepsJobs(st, t, id);
    CompleteKeepsBase(st, t, id);
    CompleteKeepsOwned(st, t, id);
  }

  lemma CompleteKeepsInv(st: State, id: nat, touched: set<nat>)
    requires Inv(st) && CanComplete(st, id, touched)
    ensures Inv(Complete(st, id, touched))
  {
    var t := Complete(st, id, touched);
    assert SepOk(st, st.seps[id]);
    CompleteFiles(st, t, id, touched);
    CompletedKeepsInv(st, t, id);
  }
}
