/** Two interleavings the code admits and the protocol does not survive, as concrete runs. */
module LifetimeRaces {
  import opened FileStates
  import opened Lifetime
  import opened Coding
  import opened LifetimeProof
  import opened LifetimeGcProof
  import opened LifetimeValues

  ghost predicate Reaches(st: State, t: State) {
    exists steps :: Legal(st, steps) && Run(st, steps) == t
  }

  lemma {:induction false} RunExtends(st: State, steps: seq<Step>, step: Step)
    requires Legal(st, steps) && Enabled(Run(st, steps), step)
    ensures Legal(st, steps + [step]) && Run(st, steps + [step]) == Apply(Run(st, steps), step)
    decreases |steps|
  {
    if steps == [] {
      assert (steps + [step])[1..] == [];
    } else {
      RunExtends(Apply(st, steps[0]), steps[1..], step);
      assert (steps + [step])[1..] == steps[1..] + [step];
    }
  }

  lemma ReachesItself(st: State)
    ensures Reaches(st, st)
  {
    assert Legal(st, []) && Run(st, []) == st;
  }

  lemma Then(st: State, mid: State, step: Step)
    requires Reaches(st, mid) && Enabled(mid, step)
    ensures Reaches(st, Apply(mid, step))
  {
    var steps :| Legal(st, steps) && Run(st, steps) == mid;
    RunExtends(st, steps, step);
  }

  // ---- a value put, flushed into blob file 1, and visible through its index ----

  function Flushed(k: Key, x: Value): State {
    State(map[1 := Entry(k, Index(Loc(1, 0)))], map[1 := Entry(k, Inline(x))], 1, multiset{},
          map[1 := Meta(Normal, 0)], map[1 := [Record(k, x)]], 2, map[], map[])
  }

  /** The flush of that value, in a given phase. */
  function Flushing(k: Key, x: Value, phase: SepPhase): State {
    var done := Flushed(k, x);
    done.(hist := if phase == Installed then done.hist else map[1 := Entry(k, Inline(x))],
          files := if phase == Built then map[] else map[1 := Meta(PendingLSM, 0)],
          seps := map[0 := Separation(true, 1, [1], phase)])
  }

  lemma PutThenBegin(k: Key, x: Value)
    ensures Reaches(START, Flushing(k, x, Built))
  {
    ReachesItself(START);
    Then(START, START, UserPut(k, x));
    var a := UserWrite(START, Entry(k, Inline(x)));
    assert a.hist == map[1 := Entry(k, Inline(x))];
    assert RecordsOf(a.hist, [1]) == [Record(k, x)];
    Then(START, a, SepBegin(0, true, [1]));
    assert Begin(a, 0, true, [1]) == Flushing(k, x, Built);
  }

  lemma FlushAdds(k: Key, x: Value)
    requires Reaches(START, Flushing(k, x, Built))
    ensures Reaches(START, Flushing(k, x, Added))
  {
    Then(START, Flushing(k, x, Built), SepAdd(0));
    assert AddSeparated(Flushing(k, x, Built), 0) == Flushing(k, x, Added);
  }

  lemma FlushInstalls(k: Key, x: Value)
    requires Reaches(START, Flushing(k, x, Added))
    ensures Reaches(START, Flushing(k, x, Installed))
  {
    Then(START, Flushing(k, x, Added), SepInstall(0));
    var t := InstallSeparated(Flushing(k, x, Added), 0);
    assert t.hist == Flushing(k, x, Installed).hist;
    assert t == Flushing(k, x, Installed);
  }

  lemma FlushCompletes(k: Key, x: Value)
    requires Reaches(START, Flushing(k, x, Installed))
    ensures Reaches(START, Flushed(k, x))
  {
    var st := Flushing(k, x, Installed);
    Then(START, st, SepDone(0, {}));
    var t := Complete(st, 0, {});
    assert t.files == Flushed(k, x).files;
    assert t.seps == map[];
    assert t == Flushed(k, x);
  }

  lemma FlushedIsReachable(k: Key, x: Value)
    ensures Reaches(START, Flushed(k, x))
  {
    PutThenBegin(k, x);
    FlushAdds(k, x);
    FlushInstalls(k, x);
    FlushCompletes(k, x);
  }

  // ---- a purge that uses a stale list of snapshots ----

  /** The purge as the code runs it: the snapshots are read first, the files are removed later. */
  function StalePurge(st: State, snapsRead: multiset<nat>): State {
    st.(files := PurgeFiles(st.files, snapsRead))
  }

  predicate Removes(st: State, snapsRead: multiset<nat>, f: nat) {
    f in st.files && st.files[f].state == Obsolete && BelowSnapshots(snapsRead, st.files[f].obsoleteSeq)
  }

  ghost predicate SeesFile(h: History, v: nat, f: nat) {
    exists s :: VisibleAt(h, s, v) && h[s].slot.Index? && h[s].slot.loc.file == f
  }

  /** A purge with a stale list is safe exactly when no live snapshot at or below the obsolete sequence
      of a file it removes still sees that file.  Other readers are never at risk. */
  lemma StalePurgeIsSafeIff(st: State, snapsRead: multiset<nat>)
    requires Inv(st)
    ensures NoDangling(StalePurge(st, snapsRead)) <==>
            forall f, v :: Removes(st, snapsRead, f) && v in st.snaps && v <= st.files[f].obsoleteSeq ==> !SeesFile(st.hist, v, f)
  {
    var t := StalePurge(st, snapsRead);
    if forall f, v :: Removes(st, snapsRead, f) && v in st.snaps && v <= st.files[f].obsoleteSeq ==> !SeesFile(st.hist, v, f) {
      forall v: nat, s: nat | IsView(t, v) && VisibleAt(t.hist, s, v) && t.hist[s].slot.Index?
        ensures t.hist[s].slot.loc.file in t.files
      {
        var f := t.hist[s].slot.loc.file;
        assert f in st.files && SeesFile(st.hist, v, f);
        assert st.files[f].state == Obsolete ==> v < st.files[f].obsoleteSeq;
      }
    }
  }

  /** Snapshots other than those of `known` lie at or above `low`, and so does the latest sequence. */
  predicate Recent(st: State, known: multiset<nat>, low: nat) {
    low <= st.last && forall v :: v in st.snaps ==> v in known || low <= v
  }

  lemma StepKeepsRecent(st: State, step: Step, known: multiset<nat>, low: nat)
    requires Enabled(st, step) && Recent(st, known, low)
    ensures Recent(Apply(st, step), known, low)
  {
  }

  lemma {:induction false} RunKeepsRecent(st: State, steps: seq<Step>, known: multiset<nat>, low: nat)
    requires Legal(st, steps) && Recent(st, known, low)
    ensures Recent(Run(st, steps), known, low)
    decreases |steps|
  {
    if steps != [] {
      StepKeepsRecent(st, steps[0], known, low);
      RunKeepsRecent(Apply(st, steps[0]), steps[1..], known, low);
    }
  }

  /** The snapshots taken since the list was read. */
  predicate TakenSince(early: State, late: State, v: nat) {
    v in late.snaps && v !in early.snaps
  }

  /** Only a snapshot taken since the read, between the read and the obsolete sequence of a removed file, is at risk. */
  lemma StalePurgeWindow(early: State, steps: seq<Step>)
    requires Inv(early) && Legal(early, steps)
    ensures var late := Run(early, steps);
            && (forall v: nat :: TakenSince(early, late, v) ==> early.last <= v)
            && (NoDangling(StalePurge(late, early.snaps)) <==>
                forall f, v: nat :: Removes(late, early.snaps, f) && TakenSince(early, late, v) && early.last <= v < late.files[f].obsoleteSeq ==>
                  !SeesFile(late.hist, v, f))
  {
    RunKeepsRecent(early, steps, early.snaps, early.last);
    RunKeepsInv(early, steps);
    var late := Run(early, steps);
    StalePurgeIsSafeIff(late, early.snaps);
    forall f, v: nat | Removes(late, early.snaps, f) && v in late.snaps && v <= late.files[f].obsoleteSeq
      ensures TakenSince(early, late, v)
      ensures v == late.files[f].obsoleteSeq ==> !SeesFile(late.hist, v, f)
    {
    }
  }

  /** A file whose obsolete sequence was reached before the snapshots were read, or lies below every snapshot taken since. */
  predicate SafeToPurge(early: State, late: State, f: nat)
    requires f in late.files
  {
    || late.files[f].obsoleteSeq <= early.last
    || forall v: nat :: TakenSince(early, late, v) ==> late.files[f].obsoleteSeq <= v
  }

  /** A purge with a list read earlier is safe when every file it removes passes that guard. */
  lemma GuardedPurgeIsSafe(early: State, steps: seq<Step>)
    requires Inv(early) && Legal(early, steps)
    requires forall f :: Removes(Run(early, steps), early.snaps, f) ==> SafeToPurge(early, Run(early, steps), f)
    ensures NoDangling(StalePurge(Run(early, steps), early.snaps))
  {
    StalePurgeWindow(early, steps);
  }

  /** A snapshot at 1, an overwrite at 2, and a collection of file 1 in a given phase. */
  function Collecting(k: Key, x: Value, y: Value, todo: set<Loc>, phase: GcPhase): State {
    Flushed(k, x).(
    hist := map[1 := Entry(k, Index(Loc(1, 0))), 2 := Entry(k, Inline(y))],
    user := map[1 := Entry(k, Inline(x)), 2 := Entry(k, Inline(y))],
    last := 2, snaps := multiset{1}, files := map[1 := Meta(BeingGC, 0)],
    jobs := map[0 := GcJob({1}, todo, {}, None, [], 0, phase)])
  }

  lemma SnapshotThenPick(k: Key, x: Value, y: Value)
    ensures Reaches(Flushed(k, x), Collecting(k, x, y, {Loc(1, 0)}, Scan))
  {
    var st := Flushed(k, x);
    ReachesItself(st);
    Then(st, st, TakeSnapshot);
    var a := Snapshot(st);
    Then(st, a, UserPut(k, y));
    var b := UserWrite(a, Entry(k, Inline(y)));
    Then(st, b, GcPick(0, {1}));
    var c := Pick(b, 0, {1});
    assert c.files == map[1 := Meta(BeingGC, 0)];
    assert Locs(b.disk, {1}) == {Loc(1, 0)} by {
      forall loc | loc in Locs(b.disk, {1}) ensures loc == Loc(1, 0) {}
      assert OnDisk(b.disk, Loc(1, 0));
    }
    assert c == Collecting(k, x, y, {Loc(1, 0)}, Scan);
  }

  lemma ScanDiscards(k: Key, x: Value, y: Value)
    requires Reaches(Flushed(k, x), Collecting(k, x, y, {Loc(1, 0)}, Scan))
    ensures Reaches(Flushed(k, x), Collecting(k, x, y, {}, Scan))
  {
    var a, b := Collecting(k, x, y, {Loc(1, 0)}, Scan), Collecting(k, x, y, {}, Scan);
    assert !IsLive(a, Loc(1, 0));
    assert a.jobs[0].todo - {Loc(1, 0)} == {};
    var t := CheckRecord(a, 0, Loc(1, 0), false);
    assert t.jobs == b.jobs;
    Then(Flushed(k, x), a, GcCheck(0, Loc(1, 0), false));
  }

  lemma NothingToInstall(k: Key, x: Value, y: Value)
    requires Reaches(Flushed(k, x), Collecting(k, x, y, {}, Scan))
    ensures Reaches(Flushed(k, x), Collecting(k, x, y, {}, Rewrite))
  {
    var a := Collecting(k, x, y, {}, Scan);
    Then(Flushed(k, x), a, GcInstall(0));
    assert InstallOutputs(a, 0) == Collecting(k, x, y, {}, Rewrite);
  }

  lemma SeqIsRead(k: Key, x: Value, y: Value)
    requires Reaches(Flushed(k, x), Collecting(k, x, y, {}, Rewrite))
    ensures Reaches(Flushed(k, x), Collecting(k, x, y, {}, Deleting(2)))
  {
    var a := Collecting(k, x, y, {}, Rewrite);
    Then(Flushed(k, x), a, GcReadSeq(0));
    assert ReadObsoleteSeq(a, 0) == Collecting(k, x, y, {}, Deleting(2));
  }

  function Collected(k: Key, x: Value, y: Value): State {
    Collecting(k, x, y, {}, Deleting(2)).(files := map[1 := Meta(Obsolete, 2)], jobs := map[])
  }

  lemma FinishComputes(k: Key, x: Value, y: Value)
    ensures FinishGc(Collecting(k, x, y, {}, Deleting(2)), 0) == Collected(k, x, y)
  {
    var t := FinishGc(Collecting(k, x, y, {}, Deleting(2)), 0);
    assert t.files == map[1 := Meta(Obsolete, 2)];
    assert t.jobs == map[];
  }

  lemma CollectionFinishes(k: Key, x: Value, y: Value)
    ensures Reaches(Flushed(k, x), Collected(k, x, y))
  {
    SnapshotThenPick(k, x, y);
    ScanDiscards(k, x, y);
    NothingToInstall(k, x, y);
    SeqIsRead(k, x, y);
    var a := Collecting(k, x, y, {}, Deleting(2));
    Then(Flushed(k, x), a, GcFinish(0));
    FinishComputes(k, x, y);
  }

  /** The snapshot list read before a snapshot is taken lets a later purge remove a file that snapshot still reads. */
  lemma StalePurgeDangles(k: Key, x: Value, y: Value)
    ensures exists early, late :: Reaches(START, early) && Reaches(early, late) && NoDangling(late)
                                  && !NoDangling(StalePurge(late, early.snaps))
  {
    FlushedIsReachable(k, x);
    CollectionFinishes(k, x, y);
    var early, late := Flushed(k, x), Collected(k, x, y);
    assert VisibleAt(late.hist, 1, 1) && IsView(late, 1);
    var t := StalePurge(late, early.snaps);
    assert IsView(t, 1) && VisibleAt(t.hist, 1, 1) && 1 !in t.files;
  }

  // ---- a user write between check and rewrite ----

  /** File 1 is being collected, its record copied to file 2, and the index not written back yet. */
  function Relocating(k: Key, x: Value, phase: GcPhase): State {
    Flushed(k, x).(
    disk := map[1 := [Record(k, x)], 2 := [Record(k, x)]], nextFile := 3,
    files := if phase == Scan then map[1 := Meta(BeingGC, 0)] else map[1 := Meta(BeingGC, 0), 2 := Meta(PendingGC, 0)],
    jobs := map[0 := GcJob({1}, {}, {2}, Some(2), [Move(Loc(1, 0), Loc(2, 0), k)], 0, phase)])
  }

  function Picked(k: Key, x: Value): State {
    Flushed(k, x).(files := map[1 := Meta(BeingGC, 0)], jobs := map[0 := GcJob({1}, {Loc(1, 0)}, {}, None, [], 0, Scan)])
  }

  lemma PickComputes(k: Key, x: Value)
    ensures Pick(Flushed(k, x), 0, {1}) == Picked(k, x)
  {
    var st := Flushed(k, x);
    assert Pick(st, 0, {1}).files == map[1 := Meta(BeingGC, 0)];
    assert Locs(st.disk, {1}) == {Loc(1, 0)} by {
      forall loc | loc in Locs(st.disk, {1}) ensures loc == Loc(1, 0) {}
      assert OnDisk(st.disk, Loc(1, 0));
    }
  }

  lemma CheckComputes(k: Key, x: Value)
    ensures CanCheck(Picked(k, x), 0, Loc(1, 0)) && CheckRecord(Picked(k, x), 0, Loc(1, 0), false) == Relocating(k, x, Scan)
  {
    var a := Picked(k, x);
    assert IsLive(a, Loc(1, 0));
    var b := CheckRecord(a, 0, Loc(1, 0), false);
    assert b.jobs[0] == Relocating(k, x, Scan).jobs[0];
  }

  lemma PickThenCheck(k: Key, x: Value)
    ensures Reaches(Flushed(k, x), Relocating(k, x, Scan))
  {
    var st := Flushed(k, x);
    ReachesItself(st);
    Then(st, st, GcPick(0, {1}));
    PickComputes(k, x);
    CheckComputes(k, x);
    Then(st, Picked(k, x), GcCheck(0, Loc(1, 0), false));
  }

  lemma InstallComputes(k: Key, x: Value)
    ensures InstallOutputs(Relocating(k, x, Scan), 0) == Relocating(k, x, Rewrite)
  {
    var b := InstallOutputs(Relocating(k, x, Scan), 0);
    assert b.files == Relocating(k, x, Rewrite).files;
    assert b.jobs == Relocating(k, x, Rewrite).jobs;
  }

  lemma OutputsAreInstalled(k: Key, x: Value)
    ensures Reaches(Flushed(k, x), Relocating(k, x, Rewrite))
  {
    PickThenCheck(k, x);
    var a := Relocating(k, x, Scan);
    Then(Flushed(k, x), a, GcInstall(0));
    InstallComputes(k, x);
  }

  function Overwritten(k: Key, x: Value, y: Value): State {
    UserWrite(Relocating(k, x, Rewrite), Entry(k, Inline(y)))
  }

  lemma UpdateIsLost(k: Key, x: Value, y: Value, t: State)
    requires CanRewrite(Overwritten(k, x, y), 0) && t == RewriteKey(Overwritten(k, x, y), 0)
    ensures UserRead(t.user, k, t.last) == Found(y) && Read(t, k, t.last) == Found(x)
  {
    assert t.last == 3;
    assert Newest(t.user, k, 3) == Newest(t.user, k, 2) == Some(2);
    assert Newest(t.hist, k, 3) == Some(3);
  }

  /** The collector's plain write overtakes the user's: the key reads its old value again. */
  lemma RewriteLosesUpdate(k: Key, x: Value, y: Value)
    requires x != y
    ensures exists t :: Reaches(START, t) && UserRead(t.user, k, t.last) == Found(y) && Read(t, k, t.last) == Found(x)
  {
    FlushedIsReachable(k, x);
    OutputsAreInstalled(k, x);
    var st := Flushed(k, x);
    Then(st, Relocating(k, x, Rewrite), UserPut(k, y));
    var c := Overwritten(k, x, y);
    Then(st, c, GcRewrite(0));
    var t := RewriteKey(c, 0);
    UpdateIsLost(k, x, y, t);
    ReachesTransitive(START, st, t);
  }

  lemma {:induction false} RunsCompose(a: State, first: seq<Step>, second: seq<Step>)
    requires Legal(a, first) && Legal(Run(a, first), second)
    ensures Legal(a, first + second) && Run(a, first + second) == Run(Run(a, first), second)
    decreases |first|
  {
    if first == [] {
      assert first + second == second;
    } else {
      RunsCompose(Apply(a, first[0]), first[1..], second);
      assert (first + second)[1..] == first[1..] + second;
    }
  }

  lemma ReachesTransitive(a: State, b: State, c: State)
    requires Reaches(a, b) && Reaches(b, c)
    ensures Reaches(a, c)
  {
    var first :| Legal(a, first) && Run(a, first) == b;
    var second :| Legal(b, second) && Run(b, second) == c;
    RunsCompose(a, first, second);
  }
}
