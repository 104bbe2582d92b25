/** Garbage collection keeps the user's values, unless a write slips between check and rewrite. */
module LifetimeValues {
  import opened Lifetime
  import opened Coding
  import opened LifetimeProof
  import opened LifetimeGcProof

  /** What the LSM and the disk together hold for `k` at `v`, whatever the file table says. */
  function Stored(h: History, disk: map<nat, seq<Record>>, k: Key, v: nat): ReadResult {
    match Newest(h, k, v)
    case None => NotFound
    case Some(s) => SlotValue(h[s].slot, disk)
  }

  function SlotValue(slot: Slot, disk: map<nat, seq<Record>>): ReadResult {
    match slot
    case Inline(x) => Found(x)
    case Tombstone => NotFound
    case Index(loc) => if OnDisk(disk, loc) then Found(disk[loc.file][loc.rec].value) else MissingFile(loc.file)
  }

  ghost predicate FaithfulAt(st: State, k: Key, v: nat) {
    Stored(st.hist, st.disk, k, v) == UserRead(st.user, k, v)
  }

  ghost predicate Faithful(st: State) {
    forall v, k :: IsView(st, v) ==> FaithfulAt(st, k, v)
  }

  ghost predicate WfUser(st: State) {
    forall s :: s in st.user ==> s <= st.last
  }

  /** A move waits to be written back for `k`. */
  ghost predicate PendingKey(st: State, k: Key) {
    exists id, i :: id in st.jobs && st.jobs[id].next <= i < |st.jobs[id].moves| && st.jobs[id].moves[i].key == k
  }

  /** The source of a waiting move is still the newest entry of its key. */
  ghost predicate MoveIsNewest(st: State, m: Move) {
    var n := Newest(st.hist, m.key, st.last);
    n.Some? && st.hist[n.value].slot == Index(m.from)
  }

  ghost predicate PendingIsNewest(st: State) {
    forall id, i :: id in st.jobs && st.jobs[id].next <= i < |st.jobs[id].moves| ==> MoveIsNewest(st, st.jobs[id].moves[i])
  }

  /** No user write to a key between the check of its record and its rewrite. */
  ghost predicate Quiet(st: State, step: Step) {
    && (step.UserPut? ==> !PendingKey(st, step.key))
    && (step.UserDelete? ==> !PendingKey(st, step.key))
  }

  ghost predicate QuietRun(st: State, steps: seq<Step>)
    requires Legal(st, steps)
    decreases |steps|
  {
    steps == [] || (Quiet(st, steps[0]) && QuietRun(Apply(st, steps[0]), steps[1..]))
  }

  ghost predicate ValueInv(st: State) {
    WfUser(st) && Faithful(st) && PendingIsNewest(st)
  }

  // ---- steps ----

  /** A new entry changes what a later reader finds only for its own key. */
  lemma PushReads(h: History, last: nat, e: Entry, k: Key, v: nat)
    requires forall s :: s in h ==> s <= last
    ensures v <= last ==> Newest(h[last + 1 := e], k, v) == Newest(h, k, v)
    ensures k != e.key ==> Newest(h[last + 1 := e], k, last + 1) == Newest(h, k, last)
    ensures Newest(h[last + 1 := e], e.key, last + 1) == Some(last + 1)
  {
    NewestPush(h, last, e);
  }

  lemma MoveStaysNewest(st: State, t: State, e: Entry, m: Move)
    requires WfHist(st) && t.hist == st.hist[st.last + 1 := e] && t.last == st.last + 1
    requires MoveIsNewest(st, m) && m.key != e.key
    ensures MoveIsNewest(t, m)
  {
    PushReads(st.hist, st.last, e, m.key, 0);
  }

  lemma StoredAfterPush(h: History, disk: map<nat, seq<Record>>, last: nat, e: Entry, k: Key, v: nat)
    requires forall s :: s in h ==> s <= last
    ensures v <= last ==> Stored(h[last + 1 := e], disk, k, v) == Stored(h, disk, k, v)
    ensures Stored(h[last + 1 := e], disk, k, last + 1) == if k == e.key then SlotValue(e.slot, disk) else Stored(h, disk, k, last)
  {
    PushReads(h, last, e, k, v);
  }

  lemma UserReadAfterPush(user: History, last: nat, e: Entry, k: Key, v: nat)
    requires forall s :: s in user ==> s <= last
    ensures v <= last ==> UserRead(user[last + 1 := e], k, v) == UserRead(user, k, v)
    ensures k != e.key ==> UserRead(user[last + 1 := e], k, last + 1) == UserRead(user, k, last)
    ensures UserRead(user[last + 1 := e], e.key, last + 1) == if e.slot.Inline? then Found(e.slot.value) else NotFound
  {
    PushReads(user, last, e, k, v);
  }

  lemma UserWriteIsFaithfulAt(st: State, t: State, e: Entry, k: Key, v: nat)
    requires WfHist(st) && WfUser(st) && !e.slot.Index? && t == UserWrite(st, e)
    requires FaithfulAt(st, k, if v <= st.last then v else st.last) && v <= t.last
    ensures FaithfulAt(t, k, v)
  {
    StoredAfterPush(st.hist, st.disk, st.last, e, k, v);
    UserReadAfterPush(st.user, st.last, e, k, v);
  }

  lemma UserWriteKeepsFaithful(st: State, t: State, e: Entry)
    requires WfHist(st) && WfDisk(st) && WfUser(st) && Faithful(st) && !e.slot.Index? && t == UserWrite(st, e)
    ensures WfUser(t) && Faithful(t)
  {
    assert IsView(st, st.last);
    forall v: nat, k | IsView(t, v) ensures FaithfulAt(t, k, v) { UserWriteIsFaithfulAt(st, t, e, k, v); }
  }

  lemma UserWriteKeepsValues(st: State, t: State, e: Entry)
    requires WfHist(st) && WfDisk(st) && ValueInv(st) && !e.slot.Index? && !PendingKey(st, e.key) && t == UserWrite(st, e)
    ensures ValueInv(t)
  {
    UserWriteKeepsFaithful(st, t, e);
    forall id, i | id in t.jobs && t.jobs[id].next <= i < |t.jobs[id].moves| ensures MoveIsNewest(t, t.jobs[id].moves[i]) {
      assert MoveIsNewest(st, st.jobs[id].moves[i]);
      MoveStaysNewest(st, t, e, st.jobs[id].moves[i]);
    }
  }

  /** Steps that take nothing from any reader: same entries seen, same bytes behind them. */
  ghost predicate SameStored(st: State, t: State) {
    && t.user == st.user && t.last == st.last && (forall v :: IsView(t, v) ==> IsView(st, v))
    && (forall k, v :: IsView(t, v) ==> Stored(t.hist, t.disk, k, v) == Stored(st.hist, st.disk, k, v))
  }

  lemma SameStoredKeepsFaithful(st: State, t: State)
    requires WfUser(st) && Faithful(st) && SameStored(st, t)
    ensures WfUser(t) && Faithful(t)
  {
    forall v: nat, k | IsView(t, v) ensures FaithfulAt(t, k, v) { assert FaithfulAt(st, k, v); }
  }

  ghost predicate NoNewMoves(st: State, t: State) {
    forall id :: id in t.jobs ==>
      || (t.jobs[id].moves == [])
      || (id in st.jobs && t.jobs[id].moves == st.jobs[id].moves && t.jobs[id].next == st.jobs[id].next)
  }

  /** Steps that only add to the disk, give up snapshots or change no entry. */
  ghost predicate QuietWorld(st: State, t: State) {
    && t.hist == st.hist && t.user == st.user && t.last == st.last
    && (forall v :: IsView(t, v) ==> IsView(st, v))
    && (forall f :: f in st.disk ==> f in t.disk && st.disk[f] <= t.disk[f])
  }

  lemma QuietWorldStores(st: State, t: State)
    requires WfHist(st) && QuietWorld(st, t)
    ensures SameStored(st, t)
  {}

  lemma QuietWorldKeepsValues(st: State, t: State)
    requires ValueInv(st) && WfHist(st) && QuietWorld(st, t) && NoNewMoves(st, t)
    ensures ValueInv(t)
  {
    QuietWorldStores(st, t);
    SameStoredKeepsFaithful(st, t);
    forall id, i | id in t.jobs && t.jobs[id].next <= i < |t.jobs[id].moves| ensures MoveIsNewest(t, t.jobs[id].moves[i]) {
      assert MoveIsNewest(st, st.jobs[id].moves[i]);
    }
  }

  /** Deleting the outputs of a failed installation takes no record that an entry refers to. */
  lemma FailStores(st: State, t: State, id: nat, deleted: set<nat>)
    requires WfHist(st) && CanFail(st, id, deleted) && JobMoves(st, st.jobs[id]) && t == FailGc(st, id, deleted)
    ensures SameStored(st, t)
  {
    forall s | s in st.hist && st.hist[s].slot.Index? ensures st.hist[s].slot.loc.file !in deleted {}
  }

  lemma FailKeepsValues(st: State, t: State, id: nat, deleted: set<nat>)
    requires WfHist(st) && ValueInv(st) && CanFail(st, id, deleted) && JobMoves(st, st.jobs[id]) && t == FailGc(st, id, deleted)
    ensures ValueInv(t)
  {
    FailStores(st, t, id, deleted);
    SameStoredKeepsFaithful(st, t);
    forall a, i | a in t.jobs && t.jobs[a].next <= i < |t.jobs[a].moves| ensures MoveIsNewest(t, t.jobs[a].moves[i]) {
      assert MoveIsNewest(st, st.jobs[a].moves[i]);
    }
  }

  lemma DropStores(st: State, dropped: set<nat>)
    requires DropIsInvisible(st, dropped)
    ensures SameStored(st, DropEntries(st, dropped))
  {
    var t := DropEntries(st, dropped);
    forall k, v: nat | IsView(t, v) ensures Stored(t.hist, t.disk, k, v) == Stored(st.hist, st.disk, k, v) {
      assert IsView(st, v);
    }
  }

  lemma DropKeepsValues(st: State, dropped: set<nat>)
    requires ValueInv(st) && DropIsInvisible(st, dropped)
    ensures ValueInv(DropEntries(st, dropped))
  {
    var t := DropEntries(st, dropped);
    DropStores(st, dropped);
    SameStoredKeepsFaithful(st, t);
    assert IsView(st, st.last);
    forall id, i | id in t.jobs && t.jobs[id].next <= i < |t.jobs[id].moves| ensures MoveIsNewest(t, t.jobs[id].moves[i]) {
      assert MoveIsNewest(st, st.jobs[id].moves[i]);
    }
  }

  /** A separated value reads the same through its index. */
  lemma InstallStores(st: State, t: State, id: nat)
    requires InPhase(st, id, Added) && SepOk(st, st.seps[id]) && t == InstallSeparated(st, id)
    ensures SameStored(st, t)
  {
    var sep := st.seps[id];
    NewestSameKeys(st.hist, t.hist);
    forall s | s in st.hist ensures SlotValue(t.hist[s].slot, t.disk) == SlotValue(st.hist[s].slot, st.disk) {
      if s in sep.seqs { assert sep.seqs[Position(sep.seqs, s)] in st.hist; }
    }
    forall k, v: nat | IsView(t, v) ensures Stored(t.hist, t.disk, k, v) == Stored(st.hist, st.disk, k, v) {
      assert Newest(t.hist, k, v) == Newest(st.hist, k, v);
    }
  }

  lemma InstallKeepsValues(st: State, t: State, id: nat)
    requires ValueInv(st) && InPhase(st, id, Added) && SepOk(st, st.seps[id]) && t == InstallSeparated(st, id)
    ensures ValueInv(t)
  {
    var sep := st.seps[id];
    InstallStores(st, t, id);
    SameStoredKeepsFaithful(st, t);
    NewestSameKeys(st.hist, t.hist);
    forall a, i | a in t.jobs && t.jobs[a].next <= i < |t.jobs[a].moves| ensures MoveIsNewest(t, t.jobs[a].moves[i]) {
      var m := st.jobs[a].moves[i];
      assert MoveIsNewest(st, m);
      var n := Newest(st.hist, m.key, st.last).value;
      assert forall p :: 0 <= p < |sep.seqs| && sep.seqs[p] in st.hist ==> st.hist[sep.seqs[p]].slot.Inline?;
      assert st.hist[n].slot == Index(m.from);
    }
  }

  lemma RelocateStores(st: State, t: State, id: nat, loc: Loc, to: Loc)
    requires WfHist(st) && id in st.jobs && id in t.jobs && Relocated(st, t, st.jobs[id], t.jobs[id], loc, to) && t.user == st.user
    ensures SameStored(st, t)
  {}

  lemma RelocateKeepsValues(st: State, t: State, id: nat, loc: Loc, to: Loc)
    requires WfHist(st) && ValueInv(st) && OneJob(st, t, id) && Relocated(st, t, st.jobs[id], t.jobs[id], loc, to)
    requires IsLive(st, loc) && t.user == st.user
    ensures ValueInv(t)
  {
    RelocateStores(st, t, id, loc, to);
    SameStoredKeepsFaithful(st, t);
    forall a, i | a in t.jobs && t.jobs[a].next <= i < |t.jobs[a].moves| ensures MoveIsNewest(t, t.jobs[a].moves[i]) {
      if a != id || i < |st.jobs[id].moves| { assert MoveIsNewest(st, st.jobs[a].moves[i]); }
    }
  }

  /** Two waiting moves of the same key would have the same source, which no two moves have. */
  lemma PendingKeysDiffer(st: State, id: nat, a: nat, i: nat)
    requires JobsOk(st) && JobsApart(st) && PendingIsNewest(st) && CanRewrite(st, id)
    requires a in st.jobs && st.jobs[a].next <= i < |st.jobs[a].moves| && (a != id || i != st.jobs[id].next)
    ensures st.jobs[a].moves[i].key != st.jobs[id].moves[st.jobs[id].next].key
  {
    var j := st.jobs[id];
    assert JobOk(st, j) && JobOk(st, st.jobs[a]);
    assert MoveOk(st, j, j.moves[j.next]) && MoveOk(st, st.jobs[a], st.jobs[a].moves[i]);
    assert MoveIsNewest(st, j.moves[j.next]) && MoveIsNewest(st, st.jobs[a].moves[i]);
  }

  lemma RewriteIsFaithfulAt(st: State, t: State, m: Move, k: Key, v: nat)
    requires WfHist(st) && WfUser(st) && MoveIsNewest(st, m) && RewriteStep(st, t, m.key, m.to) && t.user == st.user
    requires OnDisk(st.disk, m.from) && st.disk[m.from.file][m.from.rec] == st.disk[m.to.file][m.to.rec]
    requires FaithfulAt(st, k, if v <= st.last then v else st.last) && v <= t.last
    ensures FaithfulAt(t, k, v)
  {
    StoredAfterPush(st.hist, st.disk, st.last, Entry(m.key, Index(m.to)), k, v);
    assert Newest(st.user, k, st.last + 1) == Newest(st.user, k, st.last);
  }

  lemma RewriteKeepsFaithful(st: State, t: State, m: Move)
    requires WfHist(st) && WfDisk(st) && WfUser(st) && Faithful(st) && MoveIsNewest(st, m) && RewriteStep(st, t, m.key, m.to)
    requires OnDisk(st.disk, m.from) && st.disk[m.from.file][m.from.rec] == st.disk[m.to.file][m.to.rec] && t.user == st.user
    ensures WfUser(t) && Faithful(t)
  {
    assert IsView(st, st.last);
    forall v: nat, k | IsView(t, v) ensures FaithfulAt(t, k, v) { RewriteIsFaithfulAt(st, t, m, k, v); }
  }

  lemma OneJobPending(st: State, t: State, id: nat, e: Entry)
    requires WfHist(st) && PendingIsNewest(st) && OneJob(st, t, id) && t.hist == st.hist[st.last + 1 := e] && t.last == st.last + 1
    requires t.jobs[id].moves == st.jobs[id].moves && st.jobs[id].next <= t.jobs[id].next
    requires forall a, i :: a in t.jobs && t.jobs[a].next <= i < |t.jobs[a].moves| ==> t.jobs[a].moves[i].key != e.key
    ensures PendingIsNewest(t)
  {
    forall a, i | a in t.jobs && t.jobs[a].next <= i < |t.jobs[a].moves| ensures MoveIsNewest(t, t.jobs[a].moves[i]) {
      assert MoveIsNewest(st, st.jobs[a].moves[i]);
      MoveStaysNewest(st, t, e, st.jobs[a].moves[i]);
    }
  }

  lemma RewriteKeepsPending(st: State, t: State, id: nat, m: Move)
    requires WfHist(st) && JobsOk(st) && JobsApart(st) && PendingIsNewest(st) && CanRewrite(st, id)
    requires m == st.jobs[id].moves[st.jobs[id].next] && RewriteStep(st, t, m.key, m.to)
    requires OneJob(st, t, id) && t.jobs[id] == st.jobs[id].(next := st.jobs[id].next + 1)
    ensures PendingIsNewest(t)
  {
    forall a, i | a in t.jobs && t.jobs[a].next <= i < |t.jobs[a].moves| ensures t.jobs[a].moves[i].key != m.key {
      PendingKeysDiffer(st, id, a, i);
    }
    OneJobPending(st, t, id, Entry(m.key, Index(m.to)));
  }

  lemma RewriteKeepsValues(st: State, t: State, id: nat)
    requires Inv(st) && ValueInv(st) && CanRewrite(st, id) && t == RewriteKey(st, id)
    ensures ValueInv(t)
  {
    var j := st.jobs[id];
    var m := j.moves[j.next];
    assert JobOk(st, j);
    assert MoveOk(st, j, m);
    assert MoveIsNewest(st, m);
    RewriteIsRewriteStep(st, t, id);
    RewriteKeepsFaithful(st, t, m);
    RewriteKeepsPending(st, t, id, m);
  }

  // ---- every quiet run ----

  lemma ReaderStepKeepsValues(st: State, step: Step)
    requires Inv(st) && ValueInv(st) && Enabled(st, step) && Quiet(st, step)
    requires step.UserPut? || step.UserDelete? || step.TakeSnapshot? || step.ReleaseSnapshot? || step.Compact?
    ensures ValueInv(Apply(st, step))
  {
    match step
    case UserPut(k, x) => UserWriteKeepsValues(st, UserWrite(st, Entry(k, Inline(x))), Entry(k, Inline(x)));
    case UserDelete(k) => UserWriteKeepsValues(st, UserWrite(st, Entry(k, Tombstone)), Entry(k, Tombstone));
    case TakeSnapshot => QuietWorldKeepsValues(st, Snapshot(st));
    case ReleaseSnapshot(v) => QuietWorldKeepsValues(st, Release(st, v));
    case Compact(dropped) => DropKeepsValues(st, dropped);
  }

  lemma DiscardKeepsValues(st: State, t: State, id: nat, loc: Loc)
    requires WfHist(st) && ValueInv(st) && id in st.jobs
    requires t == st.(jobs := st.jobs[id := st.jobs[id].(todo := st.jobs[id].todo - {loc})])
    ensures ValueInv(t)
  {
    QuietWorldKeepsValues(st, t);
  }

  lemma CheckKeepsValues(st: State, t: State, id: nat, loc: Loc, roll: bool)
    requires WfHist(st) && WfDisk(st) && JobsOk(st) && ValueInv(st)
    requires CanScan(st, id, loc) && CanCheck(st, id, loc) && t == CheckRecord(st, id, loc, roll)
    ensures ValueInv(t)
  {
    if IsLive(st, loc) {
      assert JobOk(st, st.jobs[id]);
      RelocateIsRelocated(st, t, id, loc, roll);
      var to :| Relocated(st, t, st.jobs[id], t.jobs[id], loc, to) && (to.file in st.jobs[id].outputs || to.file == st.nextFile);
      RelocateKeepsValues(st, t, id, loc, to);
    } else {
      DiscardKeepsValues(st, t, id, loc);
    }
  }

  lemma OtherStepKeepsValues(st: State, step: Step)
    requires WfHist(st) && WfDisk(st) && ValueInv(st) && Enabled(st, step)
    requires step.SepBegin? || step.SepAdd? || step.SepDone? || step.GcPick? || step.GcInstall? || step.GcReadSeq?
             || step.GcFinish? || step.GcAbort? || step.Purge?
    ensures ValueInv(Apply(st, step))
  {
    QuietWorldKeepsValues(st, Apply(st, step));
  }

  lemma StepKeepsValues(st: State, step: Step)
    requires Inv(st) && ValueInv(st) && Enabled(st, step) && Quiet(st, step)
    ensures ValueInv(Apply(st, step))
  {
    if step.UserPut? || step.UserDelete? || step.TakeSnapshot? || step.ReleaseSnapshot? || step.Compact? {
      ReaderStepKeepsValues(st, step);
    } else if step.SepInstall? {
      assert SepOk(st, st.seps[step.id]);
      InstallKeepsValues(st, Apply(st, step), step.id);
    } else if step.GcCheck? {
      CheckKeepsValues(st, Apply(st, step), step.id, step.loc, step.roll);
    } else if step.GcRewrite? {
      RewriteKeepsValues(st, Apply(st, step), step.id);
    } else if step.GcFail? {
      assert JobOk(st, st.jobs[step.id]);
      FailKeepsValues(st, Apply(st, step), step.id, step.deleted);
    } else {
      OtherStepKeepsValues(st, step);
    }
  }

  lemma {:induction false} QuietRunKeepsValues(st: State, steps: seq<Step>)
    requires Inv(st) && ValueInv(st) && Legal(st, steps) && QuietRun(st, steps)
    ensures Inv(Run(st, steps)) && ValueInv(Run(st, steps))
    decreases |steps|
  {
    if steps != [] {
      StepKeepsInv(st, steps[0]);
      StepKeepsValues(st, steps[0]);
      QuietRunKeepsValues(Apply(st, steps[0]), steps[1..]);
    }
  }

  /** In every quiet run, every key reads, at the latest sequence and at every live snapshot, what the user wrote. */
  lemma QuietRunsReadUserValues(steps: seq<Step>)
    requires Legal(START, steps) && QuietRun(START, steps)
    ensures var st := Run(START, steps);
            forall v, k :: IsView(st, v) ==> Read(st, k, v) == UserRead(st.user, k, v)
  {
    StartHasInv();
    QuietRunKeepsValues(START, steps);
    var st := Run(START, steps);
    forall v: nat, k | IsView(st, v) ensures Read(st, k, v) == UserRead(st.user, k, v) {
      var n := Newest(st.hist, k, v);
      assert n.Some? ==> VisibleAt(st.hist, n.value, v);
      assert FaithfulAt(st, k, v);
    }
  }

  lemma ReadAfterRewrite(st: State, t: State, m: Move)
    requires WfHist(st) && RewriteStep(st, t, m.key, m.to) && m.to.file in st.files
    ensures Read(t, m.key, t.last) == Found(st.disk[m.to.file][m.to.rec].value)
  {
    PushReads(st.hist, st.last, Entry(m.key, Index(m.to)), m.key, 0);
  }

  /** A rewrite leaves its key reading what the user last wrote exactly when that is the relocated value. */
  lemma RewriteIsFaithfulIff(st: State, t: State, id: nat, m: Move)
    requires Inv(st) && WfUser(st) && CanRewrite(st, id) && t == RewriteKey(st, id) && m == st.jobs[id].moves[st.jobs[id].next]
    ensures OnDisk(st.disk, m.from)
    ensures Read(t, m.key, t.last) == UserRead(t.user, m.key, t.last) <==>
            UserRead(st.user, m.key, st.last) == Found(st.disk[m.from.file][m.from.rec].value)
  {
    assert JobOk(st, st.jobs[id]);
    assert MoveOk(st, st.jobs[id], m);
    RewriteIsRewriteStep(st, t, id);
    ReadAfterRewrite(st, t, m);
    assert Newest(st.user, m.key, st.last + 1) == Newest(st.user, m.key, st.last);
  }
}
