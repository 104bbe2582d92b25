/**
 * The manifest protocol: edits are logged and applied one by one while the database runs, and
 * replayed in one batch when it opens again.
 */
module Recovery {
  import opened Coding
  import opened VersionEdits
  import opened Collecting

  /** The open storages, the file number counter, and the manifest's records as they read back. */
  datatype Db = Db(open: map<nat, Storage>, next: nat, log: seq<Edit>)

  /** Files of a storage that are not obsolete. */
  function Live(st: Storage): map<nat, Meta> {
    map n | n in st.files && n !in st.obsolete :: st.files[n]
  }

  function AsRead(e: Edit): Edit {
    e.(deleted := Forgotten(e.deleted))
  }

  function Stamped(db: Db, e: Edit): Edit {
    e.(next := Some(db.next))
  }

  function Batch(e: Edit): Outcome {
    WithEdit(NEW_COLLECTOR, e)
  }

  /** LogAndApply accepts the edit. */
  ghost predicate Accepted(db: Db, e: Edit) {
    var o := Batch(Stamped(db, e));
    o.status.Ok? && SealableAll(o.collector.cfs, db.open)
  }

  function Logged(db: Db, e: Edit): Db {
    var e' := Stamped(db, e);
    Db(AppliedAll(Batch(e').collector.cfs, db.open), db.next, db.log + [AsRead(e')])
  }

  function Numbers(files: seq<Meta>): set<nat> {
    set i | 0 <= i < |files| :: files[i].number
  }

  /** The file numbers that the log's records have added to a column family. */
  function Recorded(log: seq<Edit>, cf: nat): set<nat> {
    if log == [] then {} else
    var last := log[|log| - 1];
    Recorded(log[..|log| - 1], cf) + if last.cf == cf then Numbers(last.added) else {}
  }

  function DeletedNumbers(files: seq<Deletion>): set<nat> {
    set i | 0 <= i < |files| :: files[i].number
  }

  /** The file numbers that the log's records have deleted from a column family. */
  function Erased(log: seq<Edit>, cf: nat): set<nat> {
    if log == [] then {} else
    var last := log[|log| - 1];
    Erased(log[..|log| - 1], cf) + if last.cf == cf then DeletedNumbers(last.deleted) else {}
  }

  // Steps.

  datatype Step =
    | NewFileNumber
    | CreateCf(cf: nat)
    | RemoveCf(cf: nat)
    | LogAndApply(e: Edit)
    | PurgeFile(cf: nat, number: nat)

  /**
   * Added files carry issued numbers that were never recorded before; column family ids are not reused.
   * An edit for a column family that is not open is logged too: nothing checks its deletions.
   */
  ghost predicate Enabled(db: Db, step: Step) {
    match step
    case NewFileNumber => true
    case CreateCf(cf) => cf !in db.open && Recorded(db.log, cf) == {} && Erased(db.log, cf) == {}
    case RemoveCf(cf) => cf in db.open
    case LogAndApply(e) =>
      && Accepted(db, e)
      && (forall n :: n in Numbers(e.added) ==> n < db.next && n !in Recorded(db.log, e.cf))
    case PurgeFile(cf, n) => cf in db.open && n in db.open[cf].files && n in db.open[cf].obsolete
  }

  function Purged(st: Storage, n: nat): Storage {
    Storage(st.files - {n}, st.obsolete - {n})
  }

  ghost function Next(db: Db, step: Step): Db
    requires Enabled(db, step)
  {
    match step
    case NewFileNumber => db.(next := db.next + 1)
    case CreateCf(cf) => db.(open := db.open[cf := Storage(map[], {})])
    case RemoveCf(cf) => db.(open := db.open - {cf})
    case LogAndApply(e) => Logged(db, e)
    case PurgeFile(cf, n) => db.(open := db.open[cf := Purged(db.open[cf], n)])
  }

  /** The edit deletes a file of a column family that is not open, and the log has deleted it before. */
  ghost predicate DeletesAgain(db: Db, e: Edit) {
    e.cf !in db.open && exists n :: n in DeletedNumbers(e.deleted) && n in Erased(db.log, e.cf)
  }

  // Replay.

  /** One collector fed every record, or None if it refuses one. */
  function Replayed(log: seq<Edit>): Option<Collector> {
    if log == [] then Some(NEW_COLLECTOR) else
    var before := Replayed(log[..|log| - 1]);
    if before.None? then None else
    var o := WithEdit(before.value, log[|log| - 1]);
    if o.status.Ok? then Some(o.collector) else None
  }

  // The link between the running database and the collector that will replay its log.

  ghost predicate StorageOk(st: Storage) {
    && st.obsolete <= st.files.Keys
    && (forall n :: n in st.files ==> st.files[n].number == n)
  }

  ghost predicate BatchOk(c: CfEdits, next: nat) {
    forall n :: n in c.added ==> n < next
  }

  ghost predicate CollectorOk(w: Collector, next: nat) {
    && w.status.Ok? && !w.done && w.next.Some? && w.next.value <= next
    && (forall cf :: cf in w.cfs ==> BatchOk(w.cfs[cf], w.next.value))
  }

  ghost predicate SameFiles(w: Collector, open: map<nat, Storage>) {
    forall cf :: cf in open ==> SameStorage(EditsOf(w, cf), open[cf])
  }

  ghost predicate SameStorage(c: CfEdits, st: Storage) {
    StorageOk(st) && c.deleted.Keys <= c.added.Keys && Kept(c) == Live(st)
  }

  ghost predicate SameNumbers(w: Collector, log: seq<Edit>) {
    forall cf :: EditsOf(w, cf).added.Keys == Recorded(log, cf) && EditsOf(w, cf).deleted.Keys == Erased(log, cf)
  }

  ghost predicate Linked(w: Collector, db: Db) {
    CollectorOk(w, db.next) && SameFiles(w, db.open) && SameNumbers(w, db.log)
  }

  ghost predicate Inv(db: Db) {
    Replayed(db.log).Some? && Linked(Replayed(db.log).value, db)
  }

  // One column family.

  lemma FillSplits<T>(table: map<nat, T>, items: seq<Item<T>>)
    requires AllNew(table, items)
    ensures AllNew(map[], items)
    ensures Fill(table, items).complete && Fill(map[], items).complete
    ensures Fill(table, items).table == table + Fill(map[], items).table
    ensures table.Keys !! Fill(map[], items).table.Keys
  {
    FillCompleteIff(table, items);
    FillCompleteIff(map[], items);
  }

  lemma FillKeys<T>(items: seq<Item<T>>, k: nat)
    requires AllNew(map[], items)
    ensures Fill(map[], items).complete
    ensures k in Fill(map[], items).table <==> Keyed(items, k)
  {
    FillCompleteIff(map[], items);
  }

  function AddedBy(e: Edit): map<nat, Meta> {
    Fill(map[], MetaItems(e.added)).table
  }

  function DeletedBy(e: Edit): map<nat, nat> {
    Fill(map[], DeletionItems(e.deleted)).table
  }

  ghost predicate NoRepeats(e: Edit) {
    AllNew(map[], MetaItems(e.added)) && AllNew(map[], DeletionItems(e.deleted))
  }

  lemma AddedNumbers(e: Edit)
    requires AllNew(map[], MetaItems(e.added))
    ensures AddedBy(e).Keys == Numbers(e.added)
    ensures forall n :: n in AddedBy(e) ==> AddedBy(e)[n].number == n
  {
    var items := MetaItems(e.added);
    FillCompleteIff(map[], items);
    forall n ensures n in AddedBy(e) <==> n in Numbers(e.added) {
      FillKeys(items, n);
      if n in Numbers(e.added) {
        var i :| 0 <= i < |e.added| && e.added[i].number == n;
        assert items[i].key == n;
      }
    }
    forall n | n in AddedBy(e) ensures AddedBy(e)[n].number == n {
      FillKeys(items, n);
      var i :| 0 <= i < |items| && items[i].key == n;
    }
  }

  /** A batch that matches a storage still matches it after both take the same edit. */
  lemma SameEditKeepsMatch(c: CfEdits, d: CfEdits, c': CfEdits, st: Storage)
    requires c.deleted.Keys <= c.added.Keys && StorageOk(st) && Kept(c) == Live(st)
    requires Sealable(d, st) && d.added.Keys !! c.added.Keys
    requires c'.added == c.added + d.added && c'.deleted.Keys == c.deleted.Keys + d.deleted.Keys
    ensures c'.deleted.Keys <= c'.added.Keys
    ensures Kept(c') == Live(Applied(d, st))
  {
    forall n | n in d.deleted && n !in d.added ensures n in c.added {
      assert n in Live(st) && n in Kept(c);
    }
    forall n ensures n in Kept(c') <==> n in Live(Applied(d, st)) {
      assert n in Kept(c) <==> n in Live(st);
    }
    forall n | n in Kept(c') ensures Kept(c')[n] == Live(Applied(d, st))[n] {
      if n !in d.added { assert n in Kept(c) && Kept(c)[n] == Live(st)[n]; }
    }
  }

  lemma AppliedStorageOk(d: CfEdits, st: Storage)
    requires StorageOk(st) && Sealable(d, st)
    requires forall n :: n in d.added ==> d.added[n].number == n
    ensures StorageOk(Applied(d, st))
  {
  }

  /** A deletion the storage accepts is new to the batch that matches the storage. */
  lemma DeletionsAreNew(c: CfEdits, d: CfEdits, st: Storage, n: nat)
    requires c.deleted.Keys <= c.added.Keys && Kept(c) == Live(st)
    requires Sealable(d, st) && d.added.Keys !! c.added.Keys && n in d.deleted
    ensures n !in c.deleted
  {
    if n !in d.added { assert n in Live(st) && n in Kept(c); }
  }

  // One collector.

  ghost predicate Takes(v: Collector, e: Edit) {
    && v.status.Ok? && !v.done
    && AllNew(EditsOf(v, e.cf).added, MetaItems(e.added))
    && AllNew(EditsOf(v, e.cf).deleted, DeletionItems(e.deleted))
    && (e.next.Some? && v.next.Some? ==> v.next.value <= e.next.value)
  }

  function Merged(c: CfEdits, e: Edit): CfEdits {
    CfEdits(c.added + AddedBy(e), c.deleted + DeletedBy(e))
  }

  function Taken(v: Collector, e: Edit): Collector {
    v.(next := if e.next.Some? then e.next else v.next, cfs := v.cfs[e.cf := Merged(EditsOf(v, e.cf), e)])
  }

  lemma TakesThenAccepts(v: Collector, e: Edit)
    requires Takes(v, e)
    ensures WithEdit(v, e) == Outcome(Taken(v, e), Ok)
  {
    var c := EditsOf(v, e.cf);
    FillSplits(c.added, MetaItems(e.added));
    FillSplits(c.deleted, DeletionItems(e.deleted));
    var mid := WithAdded(v, e).collector;
    assert mid == v.(cfs := v.cfs[e.cf := CfEdits(c.added + AddedBy(e), c.deleted)]);
    assert mid.cfs[e.cf := Merged(c, e)] == v.cfs[e.cf := Merged(c, e)];
  }

  lemma ReplayedMore(log: seq<Edit>, e: Edit, w: Collector)
    requires Replayed(log) == Some(w) && Takes(w, e)
    ensures Replayed(log + [e]) == Some(Taken(w, e))
  {
    assert (log + [e])[..|log|] == log;
    TakesThenAccepts(w, e);
  }

  lemma AcceptedBatch(e: Edit)
    requires Batch(e).status.Ok?
    ensures NoRepeats(e)
    ensures Batch(e).collector.cfs == map[e.cf := CfEdits(AddedBy(e), DeletedBy(e))]
  {
    FillCompleteIff(map[], MetaItems(e.added));
    FillCompleteIff(map[], DeletionItems(e.deleted));
  }

  lemma ForgottenKeys(e: Edit, table: map<nat, nat>)
    ensures AllNew(table, DeletionItems(AsRead(e).deleted)) <==> AllNew(table, DeletionItems(e.deleted))
    ensures AllNew(map[], DeletionItems(e.deleted)) ==> DeletedBy(AsRead(e)).Keys == DeletedBy(e).Keys
  {
    var a, b := DeletionItems(AsRead(e).deleted), DeletionItems(e.deleted);
    assert |a| == |b| && forall i :: 0 <= i < |a| ==> a[i].key == b[i].key;
    if AllNew(map[], b) {
      SameKeysFilled(a, b);
    }
  }

  lemma SameKeysFilled(a: seq<Item<nat>>, b: seq<Item<nat>>)
    requires |a| == |b| && forall i :: 0 <= i < |a| ==> a[i].key == b[i].key
    requires AllNew(map[], b)
    ensures Fill(map[], a).table.Keys == Fill(map[], b).table.Keys
  {
    forall k ensures k in Fill(map[], a).table <==> k in Fill(map[], b).table {
      FillKeys(a, k);
      FillKeys(b, k);
      assert Keyed(a, k) ==> exists i :: 0 <= i < |b| && b[i].key == k;
    }
  }

  // Logging an edit keeps the link.

  /** A deletion of an open column family was checked by the storage, another one is new by assumption. */
  lemma DeletionIsNew(w: Collector, db: Db, e: Edit, i: nat)
    requires Linked(w, db) && Enabled(db, LogAndApply(e)) && !DeletesAgain(db, e) && i < |e.deleted|
    ensures e.deleted[i].number !in EditsOf(w, e.cf).deleted
  {
    var e', n := Stamped(db, e), e.deleted[i].number;
    if e.cf in db.open {
      AcceptedBatch(e');
      AddedNumbers(e');
      var d := CfEdits(AddedBy(e'), DeletedBy(e'));
      assert Sealable(d, db.open[e.cf]);
      assert DeletionItems(e'.deleted)[i].key == n;
      FillKeys(DeletionItems(e'.deleted), n);
      DeletionsAreNew(EditsOf(w, e.cf), d, db.open[e.cf], n);
    } else {
      assert n in DeletedNumbers(e.deleted);
    }
  }

  /** The facts that make the replaying collector take the record just logged. */
  lemma ReplayTakes(w: Collector, db: Db, e: Edit)
    requires Linked(w, db) && Enabled(db, LogAndApply(e)) && !DeletesAgain(db, e)
    ensures Takes(w, AsRead(Stamped(db, e)))
  {
    var e' := Stamped(db, e);
    var c := EditsOf(w, e.cf);
    AcceptedBatch(e');
    AddedNumbers(e');
    AddsAreNew(c.added, e'.added);
    forall i | 0 <= i < |e.deleted| ensures e.deleted[i].number !in c.deleted { DeletionIsNew(w, db, e, i); }
    DeletionsAreAllNew(c.deleted, e.deleted);
    ForgottenKeys(e', c.deleted);
  }

  lemma DeletionsAreAllNew(table: map<nat, nat>, files: seq<Deletion>)
    requires AllNew(map[], DeletionItems(files)) && forall i :: 0 <= i < |files| ==> files[i].number !in table
    ensures AllNew(table, DeletionItems(files))
  {}

  lemma AddsAreNew(table: map<nat, Meta>, files: seq<Meta>)
    requires AllNew(map[], MetaItems(files)) && table.Keys !! Numbers(files)
    ensures AllNew(table, MetaItems(files))
  {
    forall i | 0 <= i < |files| ensures MetaItems(files)[i].key !in table {
      assert files[i].number in Numbers(files);
    }
  }

  lemma LoggedStorage(w: Collector, db: Db, e: Edit, w': Collector)
    requires Linked(w, db) && Enabled(db, LogAndApply(e)) && w' == Taken(w, AsRead(Stamped(db, e))) && e.cf in db.open
    ensures SameStorage(EditsOf(w', e.cf), Logged(db, e).open[e.cf])
  {
    var e' := Stamped(db, e);
    AcceptedBatch(e');
    AddedNumbers(e');
    ForgottenKeys(e', map[]);
    var d, c, c', st := CfEdits(AddedBy(e'), DeletedBy(e')), EditsOf(w, e.cf), EditsOf(w', e.cf), db.open[e.cf];
    assert Sealable(d, st);
    SameEditKeepsMatch(c, d, c', st);
    AppliedStorageOk(d, st);
  }

  lemma LoggedFiles(w: Collector, db: Db, e: Edit, w': Collector)
    requires Linked(w, db) && Enabled(db, LogAndApply(e)) && w' == Taken(w, AsRead(Stamped(db, e)))
    ensures SameFiles(w', Logged(db, e).open)
  {
    AcceptedBatch(Stamped(db, e));
    if e.cf in db.open { LoggedStorage(w, db, e, w'); }
    var open' := Logged(db, e).open;
    forall cf | cf in open' ensures SameStorage(EditsOf(w', cf), open'[cf]) {
      if cf != e.cf { assert EditsOf(w', cf) == EditsOf(w, cf) && open'[cf] == db.open[cf]; }
    }
  }

  lemma ErasedNumbers(e: Edit)
    requires AllNew(map[], DeletionItems(e.deleted))
    ensures DeletedBy(e).Keys == DeletedNumbers(e.deleted)
  {
    forall n ensures n in DeletedBy(e) <==> n in DeletedNumbers(e.deleted) {
      FillKeys(DeletionItems(e.deleted), n);
      if n in DeletedNumbers(e.deleted) {
        var i :| 0 <= i < |e.deleted| && e.deleted[i].number == n;
        assert DeletionItems(e.deleted)[i].key == n;
      }
    }
  }

  lemma LoggedNumbers(w: Collector, db: Db, e: Edit, w': Collector)
    requires SameNumbers(w, db.log) && NoRepeats(e) && w' == Taken(w, AsRead(Stamped(db, e)))
    ensures SameNumbers(w', Logged(db, e).log)
  {
    var r := AsRead(Stamped(db, e));
    ForgottenKeys(Stamped(db, e), map[]);
    AddedNumbers(r);
    ErasedNumbers(r);
    var log' := Logged(db, e).log;
    assert log'[..|log'| - 1] == db.log;
    forall cf ensures EditsOf(w', cf).added.Keys == Recorded(log', cf) && EditsOf(w', cf).deleted.Keys == Erased(log', cf) {
      assert EditsOf(w, cf).added.Keys == Recorded(db.log, cf) && EditsOf(w, cf).deleted.Keys == Erased(db.log, cf);
    }
  }

  lemma LogKeepsInv(db: Db, e: Edit)
    requires Inv(db) && Enabled(db, LogAndApply(e)) && !DeletesAgain(db, e)
    ensures Inv(Logged(db, e))
  {
    var w, r, db' := Replayed(db.log).value, AsRead(Stamped(db, e)), Logged(db, e);
    ReplayTakes(w, db, e);
    ReplayedMore(db.log, r, w);
    var w' := Taken(w, r);
    AcceptedBatch(Stamped(db, e));
    LoggedFiles(w, db, e, w');
    LoggedNumbers(w, db, e, w');
    LoggedBounds(w, db, e, w');
  }

  lemma LoggedBounds(w: Collector, db: Db, e: Edit, w': Collector)
    requires CollectorOk(w, db.next) && w' == Taken(w, AsRead(Stamped(db, e)))
    requires AllNew(map[], MetaItems(e.added)) && forall n :: n in Numbers(e.added) ==> n < db.next
    ensures CollectorOk(w', db.next)
  {
    AddedNumbers(AsRead(Stamped(db, e)));
  }

  /** The replaying collector refuses a file deleted twice. */
  lemma RepeatIsRefused(db: Db, e: Edit)
    requires Inv(db) && DeletesAgain(db, e)
    ensures Replayed(Logged(db, e).log).None?
  {
    var w, r := Replayed(db.log).value, AsRead(Stamped(db, e));
    var log' := Logged(db, e).log;
    assert log'[..|log'| - 1] == db.log;
    var n :| n in DeletedNumbers(e.deleted) && n in Erased(db.log, e.cf);
    var i :| 0 <= i < |e.deleted| && e.deleted[i].number == n;
    assert DeletionItems(r.deleted)[i].key == n && n in EditsOf(w, e.cf).deleted;
    DeletionRefused(w, r, i);
  }

  lemma DeletionRefused(w: Collector, e: Edit, i: nat)
    requires i < |e.deleted| && e.deleted[i].number in EditsOf(w, e.cf).deleted
    ensures !WithEdit(w, e).status.Ok?
  {
    FillCompleteIff(EditsOf(w, e.cf).deleted, DeletionItems(e.deleted));
    assert DeletionItems(e.deleted)[i].key == e.deleted[i].number;
    assert EditsOf(WithAdded(w, e).collector, e.cf).deleted == EditsOf(w, e.cf).deleted;
  }

  // The other steps.

  lemma CreateKeepsInv(db: Db, cf: nat)
    requires Inv(db) && Enabled(db, CreateCf(cf))
    ensures Inv(Next(db, CreateCf(cf)))
  {
    var w := Replayed(db.log).value;
    assert EditsOf(w, cf).added.Keys == {} && EditsOf(w, cf).deleted.Keys == {};
    assert Kept(EditsOf(w, cf)) == Live(Storage(map[], {}));
  }

  lemma PurgeKeepsInv(db: Db, cf: nat, n: nat)
    requires Inv(db) && Enabled(db, PurgeFile(cf, n))
    ensures Inv(Next(db, PurgeFile(cf, n)))
  {
    var st := db.open[cf];
    assert Live(Purged(st, n)) == Live(st);
  }

  lemma StepKeepsInv(db: Db, step: Step)
    requires Inv(db) && Enabled(db, step) && !(step.LogAndApply? && DeletesAgain(db, step.e))
    ensures Inv(Next(db, step))
  {
    match step
    case CreateCf(cf) => CreateKeepsInv(db, cf);
    case LogAndApply(e) => LogKeepsInv(db, e);
    case PurgeFile(cf, n) => PurgeKeepsInv(db, cf, n);
    case NewFileNumber =>
    case RemoveCf(_) =>
  }

  ghost predicate Reaches(db: Db, steps: seq<Step>, db': Db)
    decreases |steps|
  {
    if steps == [] then db' == db
    else Enabled(db, steps[0]) && Reaches(Next(db, steps[0]), steps[1..], db')
  }

  /** Some step of the run deletes a file of a closed column family a second time. */
  ghost predicate Repeats(db: Db, steps: seq<Step>)
    decreases |steps|
  {
    && steps != [] && Enabled(db, steps[0])
    && ((steps[0].LogAndApply? && DeletesAgain(db, steps[0].e)) || Repeats(Next(db, steps[0]), steps[1..]))
  }

  lemma {:induction false} RunKeepsInv(db: Db, steps: seq<Step>, db': Db)
    requires Inv(db) && Reaches(db, steps, db') && !Repeats(db, steps)
    ensures Inv(db')
    decreases |steps|
  {
    if steps != [] {
      StepKeepsInv(db, steps[0]);
      RunKeepsInv(Next(db, steps[0]), steps[1..], db');
    }
  }

  lemma {:induction false} RefusedForGood(db: Db, steps: seq<Step>, db': Db)
    requires Replayed(db.log).None? && Reaches(db, steps, db')
    ensures Replayed(db'.log).None?
    decreases |steps|
  {
    if steps != [] {
      var next := Next(db, steps[0]);
      assert steps[0].LogAndApply? ==> next.log[..|next.log| - 1] == db.log;
      RefusedForGood(next, steps[1..], db');
    }
  }

  lemma {:induction false} RepeatMakesUnreadable(db: Db, steps: seq<Step>, db': Db)
    requires Inv(db) && Reaches(db, steps, db') && Repeats(db, steps)
    ensures Replayed(db'.log).None?
    decreases |steps|
  {
    var next := Next(db, steps[0]);
    if steps[0].LogAndApply? && DeletesAgain(db, steps[0].e) {
      RepeatIsRefused(db, steps[0].e);
      RefusedForGood(next, steps[1..], db');
    } else {
      StepKeepsInv(db, steps[0]);
      RepeatMakesUnreadable(next, steps[1..], db');
    }
  }

  // A new manifest starts with a snapshot.

  ghost predicate ListsFiles(files: seq<Meta>, m: map<nat, Meta>) {
    && (forall i :: 0 <= i < |files| ==> files[i].number in m && m[files[i].number] == files[i])
    && (forall n :: n in m ==> exists i :: 0 <= i < |files| && files[i].number == n)
    && (forall i, j :: 0 <= i < j < |files| ==> files[i].number != files[j].number)
  }

  ghost predicate SnapshotRecord(open: map<nat, Storage>, e: Edit) {
    && e.next.None? && e.deleted == [] && e.updated == map[]
    && e.cf in open && ListsFiles(e.added, Live(open[e.cf]))
  }

  /** The counter, then one record per column family listing its files, in some order. */
  ghost predicate IsSnapshot(db: Db) {
    && db.log != [] && db.log[0] == Edit(Some(db.next), 0, [], [], map[])
    && (forall i :: 1 <= i < |db.log| ==> SnapshotRecord(db.open, db.log[i]))
    && (forall i, j :: 1 <= i < j < |db.log| ==> db.log[i].cf != db.log[j].cf)
    && (forall cf :: cf in db.open ==> Covered(db.log, cf))
  }

  ghost predicate Covered(log: seq<Edit>, cf: nat) {
    exists i :: 1 <= i < |log| && log[i].cf == cf
  }

  /** A database that can write a snapshot. */
  ghost predicate Snapshotable(db: Db) {
    && (forall cf :: cf in db.open ==> StorageOk(db.open[cf]))
    && (forall cf, n :: cf in db.open && n in Live(db.open[cf]) ==> n < db.next)
  }

  lemma ListedAdds(e: Edit, m: map<nat, Meta>)
    requires ListsFiles(e.added, m)
    ensures AllNew(map[], MetaItems(e.added)) && AddedBy(e) == m
  {
    var items := MetaItems(e.added);
    assert AllNew(map[], items);
    FillCompleteIff(map[], items);
    AddedNumbers(e);
    ListedNumbers(e.added, m);
    forall n | n in m ensures AddedBy(e)[n] == m[n] {
      var i :| 0 <= i < |e.added| && e.added[i].number == n;
      assert items[i].key == n && items[i].val == m[n];
    }
  }

  lemma ListedNumbers(files: seq<Meta>, m: map<nat, Meta>)
    requires ListsFiles(files, m)
    ensures Numbers(files) == m.Keys
  {
  }

  /** What the collector holds for a column family after some of the snapshot's records. */
  ghost function SnapshotEdits(db: Db, log: seq<Edit>, cf: nat): CfEdits {
    if cf in db.open && Covered(log, cf) then CfEdits(Live(db.open[cf]), map[]) else NO_CF_EDITS
  }

  ghost predicate SnapshotReplayed(db: Db, log: seq<Edit>, w: Collector) {
    && w.status.Ok? && !w.done && w.next == Some(db.next)
    && (forall cf :: EditsOf(w, cf) == SnapshotEdits(db, log, cf))
    && (forall cf :: Recorded(log, cf) == SnapshotEdits(db, log, cf).added.Keys && Erased(log, cf) == {})
  }

  lemma SnapshotStart(db: Db)
    requires IsSnapshot(db)
    ensures Replayed(db.log[..1]).Some? && SnapshotReplayed(db, db.log[..1], Replayed(db.log[..1]).value)
  {
    var log, e := db.log[..1], db.log[0];
    assert log[..0] == [] && Replayed([]) == Some(NEW_COLLECTOR) && Numbers([]) == {} && DeletedNumbers([]) == {};
    TakesThenAccepts(NEW_COLLECTOR, e);
    forall cf ensures Recorded(log, cf) == {} && Erased(log, cf) == {} {
      assert Recorded(log[..0], cf) == {} && Erased(log[..0], cf) == {};
    }
  }

  lemma SnapshotRecordTaken(db: Db, before: seq<Edit>, e: Edit, w: Collector)
    requires before != [] && SnapshotReplayed(db, before, w) && SnapshotRecord(db.open, e) && !Covered(before, e.cf)
    requires AllNew(map[], MetaItems(e.added)) && AddedBy(e) == Live(db.open[e.cf])
    ensures Takes(w, e)
    ensures SnapshotReplayed(db, before + [e], Taken(w, e))
  {
    var after, w' := before + [e], Taken(w, e);
    AddedNumbers(e);
    assert EditsOf(w, e.cf) == NO_CF_EDITS && DeletedBy(e) == map[];
    assert map[] + AddedBy(e) == AddedBy(e);
    assert after[..|after| - 1] == before;
    forall cf
      ensures EditsOf(w', cf) == SnapshotEdits(db, after, cf)
      ensures Recorded(after, cf) == SnapshotEdits(db, after, cf).added.Keys && Erased(after, cf) == {}
    {
      CoveredMore(before, e, cf);
      assert EditsOf(w, cf) == SnapshotEdits(db, before, cf) && Erased(before, cf) == {} && DeletedNumbers([]) == {};
    }
  }

  lemma SnapshotStep(db: Db, k: nat, w: Collector)
    requires IsSnapshot(db) && 1 <= k < |db.log| && SnapshotReplayed(db, db.log[..k], w)
    ensures Takes(w, db.log[k])
    ensures SnapshotReplayed(db, db.log[..k + 1], Taken(w, db.log[k]))
  {
    var e := db.log[k];
    assert db.log[..k + 1] == db.log[..k] + [e];
    assert SnapshotRecord(db.open, e);
    ListedAdds(e, Live(db.open[e.cf]));
    SnapshotRecordTaken(db, db.log[..k], e, w);
  }

  lemma CoveredMore(before: seq<Edit>, e: Edit, cf: nat)
    requires before != []
    ensures Covered(before + [e], cf) <==> Covered(before, cf) || cf == e.cf
  {
    var after := before + [e];
    assert after[|before|] == e;
    if Covered(before, cf) {
      var i :| 1 <= i < |before| && before[i].cf == cf;
      assert after[i].cf == cf;
    }
    if Covered(after, cf) && cf != e.cf {
      var i :| 1 <= i < |after| && after[i].cf == cf;
      assert before[i].cf == cf;
    }
  }

  ghost predicate SnapshotRead(db: Db, log: seq<Edit>, w: Collector) {
    Replayed(log) == Some(w) && SnapshotReplayed(db, log, w)
  }

  lemma SnapshotMore(db: Db, k: nat, v: Collector)
    requires IsSnapshot(db) && 1 <= k < |db.log| && SnapshotRead(db, db.log[..k], v)
    ensures SnapshotRead(db, db.log[..k + 1], Taken(v, db.log[k]))
  {
    SnapshotStep(db, k, v);
    ReplayedMore(db.log[..k], db.log[k], v);
    assert db.log[..k + 1] == db.log[..k] + [db.log[k]];
  }

  lemma {:induction false} SnapshotReplay(db: Db, k: nat) returns (w: Collector)
    requires IsSnapshot(db) && 1 <= k <= |db.log|
    ensures SnapshotRead(db, db.log[..k], w)
  {
    if k == 1 {
      SnapshotStart(db);
      w := Replayed(db.log[..1]).value;
    } else {
      var v := SnapshotReplay(db, k - 1);
      SnapshotMore(db, k - 1, v);
      w := Taken(v, db.log[k - 1]);
    }
  }

  lemma SnapshotInv(db: Db)
    requires IsSnapshot(db) && Snapshotable(db)
    ensures Inv(db)
  {
    assert db.log[..|db.log|] == db.log;
    var w := SnapshotReplay(db, |db.log|);
    forall cf | cf in w.cfs ensures BatchOk(w.cfs[cf], db.next) {
      assert EditsOf(w, cf) == SnapshotEdits(db, db.log, cf);
    }
    forall cf | cf in db.open ensures SameStorage(EditsOf(w, cf), db.open[cf]) {
      assert EditsOf(w, cf) == CfEdits(Live(db.open[cf]), map[]);
    }
  }

  // Recovery.

  function Empty(ids: set<nat>): map<nat, Storage> {
    map cf | cf in ids :: Storage(map[], {})
  }

  ghost predicate Rebuilds(log: seq<Edit>, ids: set<nat>, open: map<nat, Storage>) {
    && Replayed(log).Some?
    && SealableAll(Replayed(log).value.cfs, Empty(ids))
    && AppliedAll(Replayed(log).value.cfs, Empty(ids)) == map cf | cf in ids && cf in open :: Storage(Live(open[cf]), {})
  }

  lemma AppliedToEmpty(c: CfEdits)
    requires c.deleted.Keys <= c.added.Keys
    ensures Sealable(c, Storage(map[], {})) && Applied(c, Storage(map[], {})) == Storage(Kept(c), {})
  {
    assert Kept(c) + map[] == Kept(c);
  }

  lemma CfRebuilds(w: Collector, cf: nat, st: Storage)
    requires SameStorage(EditsOf(w, cf), st)
    ensures cf in w.cfs ==> Sealable(w.cfs[cf], Storage(map[], {}))
    ensures (if cf in w.cfs then Applied(w.cfs[cf], Storage(map[], {})) else Storage(map[], {})) == Storage(Live(st), {})
  {
    AppliedToEmpty(EditsOf(w, cf));
    assert Kept(NO_CF_EDITS) == map[];
  }

  lemma InvRebuilds(db: Db, ids: set<nat>)
    requires Inv(db) && ids <= db.open.Keys
    ensures Rebuilds(db.log, ids, db.open)
  {
    var w := Replayed(db.log).value;
    forall cf | cf in ids
      ensures cf in w.cfs ==> Sealable(w.cfs[cf], Storage(map[], {}))
      ensures (if cf in w.cfs then Applied(w.cfs[cf], Storage(map[], {})) else Storage(map[], {})) == Storage(Live(db.open[cf]), {})
    {
      CfRebuilds(w, cf, db.open[cf]);
    }
  }

  lemma InvCounts(db: Db, cf: nat, n: nat)
    requires Inv(db) && n in Recorded(db.log, cf)
    ensures n < Replayed(db.log).value.next.value
  {
    var w := Replayed(db.log).value;
    assert n in EditsOf(w, cf).added;
  }

  /**
   * Every run after a snapshot can be replayed in one batch, to the same files and a counter above every
   * recorded number, exactly when it never deletes a file of a closed column family twice.
   */
  lemma RecoveryRebuilds(db: Db, steps: seq<Step>, db': Db, ids: set<nat>)
    requires IsSnapshot(db) && Snapshotable(db) && Reaches(db, steps, db') && ids <= db'.open.Keys
    ensures Rebuilds(db'.log, ids, db'.open) <==> !Repeats(db, steps)
    ensures Replayed(db'.log).Some? <==> !Repeats(db, steps)
    ensures !Repeats(db, steps) ==> Replayed(db'.log).value.next.Some?
    ensures !Repeats(db, steps) ==> forall cf, n :: n in Recorded(db'.log, cf) ==> n < Replayed(db'.log).value.next.value
  {
    SnapshotInv(db);
    if Repeats(db, steps) {
      RepeatMakesUnreadable(db, steps, db');
    } else {
      RunKeepsInv(db, steps, db');
      InvRebuilds(db', ids);
      forall cf, n | n in Recorded(db'.log, cf) ensures n < Replayed(db'.log).value.next.value { InvCounts(db', cf, n); }
    }
  }

  /** Every edit with deletions is for a column family that is open when it is logged. */
  ghost predicate DeletesInOpen(db: Db, steps: seq<Step>)
    decreases |steps|
  {
    steps == [] || (Enabled(db, steps[0]) && (steps[0].LogAndApply? && steps[0].e.deleted != [] ==> steps[0].e.cf in db.open)
                    && DeletesInOpen(Next(db, steps[0]), steps[1..]))
  }

  lemma {:induction false} OpenDeletionsNeverRepeat(db: Db, steps: seq<Step>)
    requires DeletesInOpen(db, steps)
    ensures !Repeats(db, steps)
    decreases |steps|
  {
    if steps != [] {
      assert steps[0].LogAndApply? && steps[0].e.deleted == [] ==> DeletedNumbers(steps[0].e.deleted) == {};
      OpenDeletionsNeverRepeat(Next(db, steps[0]), steps[1..]);
    }
  }

  /** If deletions only go to open column families, as those of all callers do, every run recovers. */
  lemma OpenDeletionsRecover(db: Db, steps: seq<Step>, db': Db, ids: set<nat>)
    requires IsSnapshot(db) && Snapshotable(db) && Reaches(db, steps, db') && ids <= db'.open.Keys && DeletesInOpen(db, steps)
    ensures Rebuilds(db'.log, ids, db'.open)
  {
    OpenDeletionsNeverRepeat(db, steps);
    RecoveryRebuilds(db, steps, db', ids);
  }

  // A run that makes its own log unreadable.

  function Erasing(cf: nat, n: nat): Edit {
    Edit(None, cf, [], [Deletion(n, 0)], map[])
  }

  lemma ErasingIsAccepted(db: Db, cf: nat, n: nat)
    requires cf !in db.open
    ensures Enabled(db, LogAndApply(Erasing(cf, n))) && Logged(db, Erasing(cf, n)).open == db.open
  {
    var e := Stamped(db, Erasing(cf, n));
    TakesThenAccepts(NEW_COLLECTOR, e);
    assert Numbers([]) == {};
  }

  /** For any database just written to a manifest, two deletions of one number in a closed column family are both logged, and the log is lost. */
  lemma DeletedTwice(db: Db, cf: nat, n: nat, db': Db)
    requires IsSnapshot(db) && Snapshotable(db) && cf !in db.open
    requires db' == Logged(Logged(db, Erasing(cf, n)), Erasing(cf, n))
    ensures Reaches(db, [LogAndApply(Erasing(cf, n)), LogAndApply(Erasing(cf, n))], db') && Replayed(db'.log).None?
  {
    var e := Erasing(cf, n);
    var step := LogAndApply(e);
    var mid := Logged(db, e);
    ErasingIsAccepted(db, cf, n);
    ErasingIsAccepted(mid, cf, n);
    assert [step, step][1..] == [step] && [step][1..] == [];
    assert Reaches(mid, [step], db');
    assert mid.log[|db.log|].deleted[0].number == n && e.deleted[0].number == n;
    assert n in DeletedNumbers(mid.log[|db.log|].deleted) && n in DeletedNumbers(e.deleted);
    assert DeletesAgain(mid, e);
    assert Repeats(mid, [step]);
    SnapshotInv(db);
    RepeatMakesUnreadable(db, [step, step], db');
  }
}
