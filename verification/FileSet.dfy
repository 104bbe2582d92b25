/** The set of blob storages with its manifest, down to the bytes of the records. */
module FileSet {
  import opened Order
  import opened Coding
  import opened VersionEdits
  import opened Collecting
  import Recovery

  /** The edits that a manifest's records hold, or None if one is corrupt. */
  function ReadAll(records: seq<Bytes>): Option<seq<Edit>> {
    if records == [] then Some([]) else
    var before, last := ReadAll(records[..|records| - 1]), Decoded(NO_EDIT, records[|records| - 1]);
    if before.None? || last.None? then None else Some(before.value + [last.value])
  }

  lemma {:induction false} ReadPrefix(records: seq<Bytes>, k: nat)
    requires k <= |records| && ReadAll(records).Some?
    ensures ReadAll(records[..k]).Some? && ReadAll(records[..k]).value <= ReadAll(records).value
    ensures |ReadAll(records[..k]).value| == k
    decreases |records|
  {
    if k < |records| {
      var n := |records| - 1;
      ReadPrefix(records[..n], k);
      assert records[..n][..k] == records[..k];
    } else {
      assert records[..k] == records;
      if records != [] {
        assert records[..k - 1][..k - 1] == records[..k - 1];
        ReadPrefix(records[..k - 1], k - 1);
      }
    }
  }

  lemma {:induction false} ReplayedPrefix(log: seq<Edit>, k: nat)
    requires k <= |log| && Recovery.Replayed(log).Some?
    ensures Recovery.Replayed(log[..k]).Some?
    decreases |log|
  {
    if k < |log| {
      ReplayedPrefix(log[..|log| - 1], k);
      assert log[..|log| - 1][..k] == log[..k];
    } else {
      assert log[..k] == log;
    }
  }

  /** Machine widths of the persistent fields. */
  ghost predicate Widths(storages: map<nat, Storage>) {
    forall cf :: cf in storages ==> cf < U32 && forall n :: n in storages[cf].files ==> MetaFits(storages[cf].files[n])
  }

  /** Replay ends well: every record reads and is taken, the batch fits the storages, and a counter was recorded. */
  ghost predicate Recoverable(records: seq<Bytes>, storages: map<nat, Storage>) {
    && ReadAll(records).Some?
    && Recovery.Replayed(ReadAll(records).value).Some?
    && var w := Recovery.Replayed(ReadAll(records).value).value;
    SealableAll(w.cfs, storages) && w.next.Some?
  }

  /** The records of a snapshot: they update nothing, so their hash tables have no order. */
  function SnapshotBytes(log: seq<Edit>): seq<Bytes> {
    seq(|log|, i requires 0 <= i < |log| => Encoded(log[i], []))
  }

  class BlobFileSet {
    var storages: map<nat, Storage>
    var nextFileNumber: nat
    var manifest: seq<Bytes>

    /** The object's state, with the manifest as the edits it holds. */
    ghost predicate Reflects(db: Recovery.Db)
      reads this
    {
      && storages == db.open && nextFileNumber == db.next
      && ReadAll(manifest) == Some(db.log)
    }

    method NewFileNumber(ghost db: Recovery.Db) returns (n: nat)
      requires Reflects(db)
      modifies `nextFileNumber
      ensures n == db.next && Reflects(Recovery.Next(db, Recovery.NewFileNumber))
    {
      n := nextFileNumber;
      nextFileNumber := nextFileNumber + 1;
    }

    /** `updates` is the order in which the edit's hash table of updates is written. */
    method LogAndApply(edit: Edit, updates: seq<Update>, ghost db: Recovery.Db) returns (s: Status)
      requires Reflects(db) && EditFits(edit) && nextFileNumber < U64 && Lists(updates, edit.updated)
      modifies this
      ensures s == if Recovery.Accepted(db, edit) then Ok else Corruption
      ensures Reflects(if s.Ok? then Recovery.Logged(db, edit) else db)
    {
      var e := edit.(next := Some(nextFileNumber));
      var collector := new EditCollector();
      s := collector.AddEdit(e);
      BatchStatus(e);
      if !s.Ok? { return; }
      s := collector.Seal(storages);
      if !s.Ok? { return; }
      AppendEdit(e, updates, db.log);
      s, storages := collector.Apply(storages);
    }

    method AppendEdit(e: Edit, updates: seq<Update>, ghost log: seq<Edit>)
      requires ReadAll(manifest) == Some(log) && EditFits(e) && Lists(updates, e.updated)
      modifies `manifest
      ensures ReadAll(manifest) == Some(log + [Recovery.AsRead(e)]) && manifest == old(manifest) + [Encoded(e, updates)]
    {
      var record := EncodeTo(e, updates);
      ReadOneMore(manifest, log, e, updates);
      manifest := manifest + [record];
    }

    method AppendRecord(e: Edit, ghost log: seq<Edit>)
      requires ReadAll(manifest) == Some(log) && EditFits(e) && e.deleted == [] && e.updated == map[]
      modifies `manifest
      ensures ReadAll(manifest) == Some(log + [e]) && manifest == old(manifest) + [Encoded(e, [])]
    {
      AppendEdit(e, [], log);
      assert Forgotten(e.deleted) == e.deleted;
    }

    /** Starts a new manifest with the counter and the live files of every column family. */
    method WriteSnapshot() returns (ghost db: Recovery.Db)
      requires Widths(storages) && nextFileNumber < U64 && forall cf :: cf in storages ==> Recovery.StorageOk(storages[cf])
      modifies `manifest
      ensures Reflects(db) && Recovery.IsSnapshot(db) && manifest == SnapshotBytes(db.log)
    {
      var first := Edit(Some(nextFileNumber), 0, [], [], map[]);
      manifest := [];
      AppendRecord(first, []);
      ghost var log := [first];
      assert [] + log == log;
      var todo := storages.Keys;
      while todo != {}
        invariant todo <= storages.Keys && ReadAll(manifest) == Some(log) && SnapshotSoFar(storages, first, log, todo)
        invariant manifest == SnapshotBytes(log)
        decreases todo
      {
        var cf :| cf in todo;
        var files := LiveFiles(storages[cf]);
        var e := Edit(None, cf, files, [], map[]);
        ListedWidths(files, storages, cf);
        AppendRecord(e, log);
        SnapshotOneMore(storages, first, log, todo, e);
        SnapshotBytesMore(log, e);
        todo, log := todo - {cf}, log + [e];
      }
      db := Recovery.Db(storages, nextFileNumber, log);
    }

    /** Replays a manifest into the storages that were just opened. */
    method Recover(records: seq<Bytes>) returns (s: Status)
      modifies `storages, `nextFileNumber
      ensures s.Ok? <==> Recoverable(records, old(storages))
      ensures s.Ok? ==>
        var w := Recovery.Replayed(ReadAll(records).value).value;
        storages == AppliedAll(w.cfs, old(storages)) && Some(nextFileNumber) == w.next
    {
      var collector := new EditCollector();
      s := Feed(collector, records);
      if !s.Ok? { return; }
      ReplayedStatus(ReadAll(records).value);
      s := collector.Seal(storages);
      if !s.Ok? { return; }
      s, storages := collector.Apply(storages);
      var n;
      s, n := collector.GetNextFileNumber();
      if s.Ok? { nextFileNumber := n; }
    }
  }

  /** A collector that took every record of a manifest. */
  ghost predicate Fed(records: seq<Bytes>, w: Collector) {
    ReadAll(records).Some? && Recovery.Replayed(ReadAll(records).value) == Some(w)
  }

  ghost predicate Unreadable(records: seq<Bytes>) {
    ReadAll(records).None? || Recovery.Replayed(ReadAll(records).value).None?
  }

  lemma FeedOne(records: seq<Bytes>, i: nat, w: Collector)
    requires i < |records| && Fed(records[..i], w)
    ensures var e := Decoded(NO_EDIT, records[i]);
      if e.Some? && WithEdit(w, e.value).status.Ok? then Fed(records[..i + 1], WithEdit(w, e.value).collector)
      else Unreadable(records[..i + 1])
  {
    assert records[..i + 1][..i] == records[..i];
    var log, e := ReadAll(records[..i]).value, Decoded(NO_EDIT, records[i]);
    if e.Some? { assert (log + [e.value])[..|log|] == log; }
  }

  method Feed(collector: EditCollector, records: seq<Bytes>) returns (s: Status)
    requires collector.Valid() && collector.View() == NEW_COLLECTOR
    modifies collector
    ensures collector.Valid() && if s.Ok? then Fed(records, collector.View()) else Unreadable(records)
  {
    for i := 0 to |records|
      invariant collector.Valid() && Fed(records[..i], collector.View())
    {
      FeedOne(records, i, collector.View());
      var e := DecodeFrom(records[i]);
      if e.None? {
        UnreadableFrom(records, i + 1);
        return Corruption;
      }
      s := collector.AddEdit(e.value);
      if !s.Ok? {
        UnreadableFrom(records, i + 1);
        return;
      }
    }
    assert records[..|records|] == records;
    return Ok;
  }

  /** The snapshot's records when the column families in `todo` are still to be written. */
  ghost predicate SnapshotSoFar(storages: map<nat, Storage>, first: Edit, log: seq<Edit>, todo: set<nat>) {
    && log != [] && log[0] == first
    && (forall i :: 1 <= i < |log| ==> Recovery.SnapshotRecord(storages, log[i]) && log[i].cf !in todo)
    && (forall i, j :: 1 <= i < j < |log| ==> log[i].cf != log[j].cf)
    && (forall cf :: cf in storages && cf !in todo ==> Recovery.Covered(log, cf))
  }

  lemma SnapshotOneMore(storages: map<nat, Storage>, first: Edit, log: seq<Edit>, todo: set<nat>, e: Edit)
    requires SnapshotSoFar(storages, first, log, todo) && Recovery.SnapshotRecord(storages, e) && e.cf in todo
    ensures SnapshotSoFar(storages, first, log + [e], todo - {e.cf})
  {
    forall cf | cf in storages && cf !in todo - {e.cf} ensures Recovery.Covered(log + [e], cf) {
      Recovery.CoveredMore(log, e, cf);
    }
  }

  method LiveFiles(st: Storage) returns (files: seq<Meta>)
    requires Recovery.StorageOk(st)
    ensures Recovery.ListsFiles(files, Recovery.Live(st))
  {
    files := [];
    var todo := st.files.Keys;
    while todo != {}
      invariant todo <= st.files.Keys
      invariant Recovery.Numbers(files) == Recovery.Live(st).Keys - todo
      invariant forall i :: 0 <= i < |files| ==> files[i].number in st.files && st.files[files[i].number] == files[i]
      invariant forall i, j :: 0 <= i < j < |files| ==> files[i].number != files[j].number
      decreases todo
    {
      var n :| n in todo;
      todo := todo - {n};
      if n !in st.obsolete {
        NumbersMore(files, st.files[n]);
        files := files + [st.files[n]];
      }
    }
    assert forall i :: 0 <= i < |files| ==> files[i].number in Recovery.Numbers(files);
    assert forall n :: n in Recovery.Live(st) ==> n in Recovery.Numbers(files);
  }

  lemma NumbersMore(files: seq<Meta>, m: Meta)
    ensures Recovery.Numbers(files + [m]) == Recovery.Numbers(files) + {m.number}
    ensures forall i :: 0 <= i < |files| ==> files[i].number in Recovery.Numbers(files)
  {
    var more := files + [m];
    assert more[|files|] == m;
    assert forall i :: 0 <= i < |files| ==> more[i] == files[i];
  }

  lemma ListedWidths(files: seq<Meta>, storages: map<nat, Storage>, cf: nat)
    requires cf in storages && Widths(storages) && Recovery.ListsFiles(files, Recovery.Live(storages[cf]))
    ensures EditFits(Edit(None, cf, files, [], map[]))
  {
    forall i | 0 <= i < |files| ensures MetaFits(files[i]) {
      assert files[i].number in Recovery.Live(storages[cf]);
    }
  }

  lemma ReadOneMore(manifest: seq<Bytes>, log: seq<Edit>, e: Edit, updates: seq<Update>)
    requires ReadAll(manifest) == Some(log) && EditFits(e) && Lists(updates, e.updated)
    ensures ReadAll(manifest + [Encoded(e, updates)]) == Some(log + [Recovery.AsRead(e)])
  {
    EditRoundTrip(e, updates);
    assert (manifest + [Encoded(e, updates)])[..|manifest|] == manifest;
  }

  lemma UnreadableFrom(records: seq<Bytes>, k: nat)
    requires k <= |records| && Unreadable(records[..k])
    ensures Unreadable(records)
  {
    if ReadAll(records).Some? && Recovery.Replayed(ReadAll(records).value).Some? {
      ReadPrefix(records, k);
      var log := ReadAll(records).value;
      assert log[..k] == ReadAll(records[..k]).value;
      ReplayedPrefix(log, k);
    }
  }

  lemma {:induction false} ReplayedStatus(log: seq<Edit>)
    requires Recovery.Replayed(log).Some?
    ensures Recovery.Replayed(log).value.status.Ok? && !Recovery.Replayed(log).value.done
  {
    if log != [] { ReplayedStatus(log[..|log| - 1]); }
  }

  // The bytes of a whole run.

  ghost predicate SnapshotFits(log: seq<Edit>) {
    forall i :: 0 <= i < |log| ==> EditFits(log[i]) && log[i].deleted == [] && log[i].updated == map[]
  }

  lemma SnapshotBytesMore(log: seq<Edit>, e: Edit)
    ensures SnapshotBytes(log + [e]) == SnapshotBytes(log) + [Encoded(e, [])]
  {}

  ghost predicate Holds(record: Bytes, e: Edit) {
    Decoded(NO_EDIT, record) == Some(e)
  }

  lemma OneMoreReads(records: seq<Bytes>, log: seq<Edit>, k: nat)
    requires k < |records| == |log| && ReadAll(records[..k]) == Some(log[..k]) && Holds(records[k], log[k])
    ensures ReadAll(records[..k + 1]) == Some(log[..k + 1])
  {
    assert records[..k + 1][..k] == records[..k];
    assert log[..k + 1] == log[..k] + [log[k]];
  }

  lemma {:induction false} EachReads(records: seq<Bytes>, log: seq<Edit>, k: nat)
    requires k <= |records| == |log| && forall i :: 0 <= i < |log| ==> Holds(records[i], log[i])
    ensures ReadAll(records[..k]) == Some(log[..k])
  {
    if k > 0 {
      EachReads(records, log, k - 1);
      OneMoreReads(records, log, k - 1);
    }
  }

  lemma SnapshotReads(log: seq<Edit>)
    requires SnapshotFits(log)
    ensures ReadAll(SnapshotBytes(log)) == Some(log)
  {
    forall i | 0 <= i < |log| ensures Holds(SnapshotBytes(log)[i], log[i]) {
      EditRoundTrip(log[i], []);
      assert Forgotten(log[i].deleted) == log[i].deleted;
    }
    var records := SnapshotBytes(log);
    EachReads(records, log, |log|);
    assert records[..|log|] == records && log[..|log|] == log;
  }

  /** A step of a run, with the order in which a logged edit's hash table of updates is written. */
  datatype ByteStep = ByteStep(step: Recovery.Step, updates: seq<Update>)

  function StepsOf(run: seq<ByteStep>): seq<Recovery.Step> {
    seq(|run|, i requires 0 <= i < |run| => run[i].step)
  }

  ghost predicate StepFits(db: Recovery.Db, s: ByteStep) {
    s.step.LogAndApply? ==> db.next < U64 && EditFits(s.step.e) && Lists(s.updates, s.step.e.updated)
  }

  /** The run is possible, and its numbers keep within their machine widths. */
  ghost predicate Legal(db: Recovery.Db, run: seq<ByteStep>)
    decreases |run|
  {
    run == [] || (Recovery.Enabled(db, run[0].step) && StepFits(db, run[0]) && Legal(Recovery.Next(db, run[0].step), run[1..]))
  }

  ghost function After(db: Recovery.Db, run: seq<ByteStep>): Recovery.Db
    requires Legal(db, run)
    decreases |run|
  {
    if run == [] then db else After(Recovery.Next(db, run[0].step), run[1..])
  }

  /** What a step, and a run, appends to the manifest. */
  function StepBytes(db: Recovery.Db, s: ByteStep): seq<Bytes> {
    if s.step.LogAndApply? then [Encoded(Recovery.Stamped(db, s.step.e), s.updates)] else []
  }

  ghost function Written(db: Recovery.Db, run: seq<ByteStep>): seq<Bytes>
    requires Legal(db, run)
    decreases |run|
  {
    if run == [] then [] else StepBytes(db, run[0]) + Written(Recovery.Next(db, run[0].step), run[1..])
  }

  lemma StepReads(db: Recovery.Db, s: ByteStep, manifest: seq<Bytes>)
    requires Recovery.Enabled(db, s.step) && StepFits(db, s) && ReadAll(manifest) == Some(db.log)
    ensures ReadAll(manifest + StepBytes(db, s)) == Some(Recovery.Next(db, s.step).log)
  {
    if s.step.LogAndApply? {
      ReadOneMore(manifest, db.log, Recovery.Stamped(db, s.step.e), s.updates);
    } else {
      assert manifest + [] == manifest;
    }
  }

  /** The bytes a run writes read back as its log. */
  lemma {:induction false} WrittenReads(db: Recovery.Db, run: seq<ByteStep>, manifest: seq<Bytes>)
    requires Legal(db, run) && ReadAll(manifest) == Some(db.log)
    ensures ReadAll(manifest + Written(db, run)) == Some(After(db, run).log)
    decreases |run|
  {
    if run == [] {
      assert manifest + [] == manifest;
    } else {
      StepReads(db, run[0], manifest);
      var next, more := Recovery.Next(db, run[0].step), StepBytes(db, run[0]);
      WrittenReads(next, run[1..], manifest + more);
      Regroup(manifest, more, Written(next, run[1..]));
    }
  }

  lemma Regroup(a: seq<Bytes>, b: seq<Bytes>, c: seq<Bytes>)
    ensures a + b + c == a + (b + c)
  {}

  lemma {:induction false} RunReaches(db: Recovery.Db, run: seq<ByteStep>)
    requires Legal(db, run)
    ensures Recovery.Reaches(db, StepsOf(run), After(db, run))
    decreases |run|
  {
    if run != [] {
      RunReaches(Recovery.Next(db, run[0].step), run[1..]);
      assert StepsOf(run)[1..] == StepsOf(run[1..]);
    }
  }

  /**
   * From a snapshot on, the bytes of the manifest recover to the live files of the running database,
   * exactly when the run never deletes a file of a closed column family twice.
   */
  lemma BytesRecover(db: Recovery.Db, run: seq<ByteStep>, ids: set<nat>)
    requires Recovery.IsSnapshot(db) && Recovery.Snapshotable(db) && SnapshotFits(db.log)
    requires Legal(db, run) && ids <= After(db, run).open.Keys
    ensures var records, db' := SnapshotBytes(db.log) + Written(db, run), After(db, run);
      && ReadAll(records) == Some(db'.log)
      && (Recoverable(records, Recovery.Empty(ids)) <==> !Recovery.Repeats(db, StepsOf(run)))
      && (Recoverable(records, Recovery.Empty(ids)) ==>
            AppliedAll(Recovery.Replayed(db'.log).value.cfs, Recovery.Empty(ids))
            == map cf | cf in ids && cf in db'.open :: Storage(Recovery.Live(db'.open[cf]), {}))
  {
    SnapshotReads(db.log);
    WrittenReads(db, run, SnapshotBytes(db.log));
    RunReaches(db, run);
    Recovery.RecoveryRebuilds(db, StepsOf(run), After(db, run), ids);
  }

  lemma BatchStatus(e: Edit)
    ensures Recovery.Batch(e).status.Ok? || Recovery.Batch(e).status == Corruption
    ensures Recovery.Batch(e).status.Ok? ==> Recovery.Batch(e).collector.status.Ok? && !Recovery.Batch(e).collector.done
  {
  }
}
