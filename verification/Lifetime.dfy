/**
 The life of blob files under user writes, flushes and compactions that separate values,
 concurrent garbage collection, snapshots and purging, as a state machine.

 The LSM tree is the history of its entries: sequence number to key and slot.  A slot is an inline
 value, a deletion, or an index that points at one record of a blob file.
 */
module Lifetime {
  import opened FileStates
  import opened Coding
  import Order

  type Key(==, !new)
  type Value(==, !new)

  /** A blob index: a file number and the position of a record in that file. */
  datatype Loc = Loc(file: nat, rec: nat)

  datatype Slot = Inline(value: Value) | Tombstone | Index(loc: Loc)
  datatype Entry = Entry(key: Key, slot: Slot)
  datatype Record = Record(key: Key, value: Value)

  type History = map<nat, Entry>

  /** In-memory meta of a blob file; `obsoleteSeq` matters once the state is Obsolete. */
  datatype Meta = Meta(state: FileState, obsoleteSeq: nat)

  datatype SepPhase = Built | Added | Installed

  /** A flush or compaction that moves the inline values at `seqs` into records 0.. of `file`. */
  datatype Separation = Separation(flush: bool, file: nat, seqs: seq<nat>, phase: SepPhase)

  /** A record the collector found live, and its copy in an output file. */
  datatype Move = Move(from: Loc, to: Loc, key: Key)

  datatype GcPhase = Scan | Rewrite | Deleting(obsoleteSeq: nat)

  datatype GcJob = GcJob(
    inputs: set<nat>,
    todo: set<Loc>,           // input records not checked yet
    outputs: set<nat>,
    current: Option<nat>,     // output file being filled
    moves: seq<Move>,
    next: nat,                // moves already written back to the LSM
    phase: GcPhase)

  datatype State = State(
    hist: History,
    user: History,            // the user's own writes
    last: nat,                // latest sequence number
    snaps: multiset<nat>,
    files: map<nat, Meta>,
    disk: map<nat, seq<Record>>,
    nextFile: nat,
    seps: map<nat, Separation>,
    jobs: map<nat, GcJob>)

  const START: State := State(map[], map[], 0, multiset{}, map[], map[], 1, map[], map[])

  // ---- reading ----

  /** The newest entry of `k` at or below sequence `v`. */
  function Newest(h: History, k: Key, v: nat): (n: Option<nat>)
    ensures n.Some? ==>
              && n.value in h && n.value <= v && h[n.value].key == k
              && forall s :: s in h && n.value < s <= v ==> h[s].key != k
    ensures n.None? ==> forall s :: s in h && s <= v ==> h[s].key != k
  {
    if v in h && h[v].key == k then Some(v)
    else if v == 0 then None
    else Newest(h, k, v - 1)
  }

  /** The sequences a reader can ask for: the latest one and every live snapshot. */
  predicate IsView(st: State, v: nat) {
    v == st.last || v in st.snaps
  }

  predicate OnDisk(disk: map<nat, seq<Record>>, loc: Loc) {
    loc.file in disk && loc.rec < |disk[loc.file]|
  }

  datatype ReadResult = Found(value: Value) | NotFound | MissingFile(file: nat)

  /** What a read of `k` at `v` returns: the index is followed through the files still known. */
  function Read(st: State, k: Key, v: nat): ReadResult {
    match Newest(st.hist, k, v)
    case None => NotFound
    case Some(s) =>
      match st.hist[s].slot
      case Inline(x) => Found(x)
      case Tombstone => NotFound
      case Index(loc) =>
        if loc.file in st.files && OnDisk(st.disk, loc) then Found(st.disk[loc.file][loc.rec].value)
        else MissingFile(loc.file)
  }

  /** What the user's own writes say `k` holds at `v`. */
  function UserRead(user: History, k: Key, v: nat): ReadResult {
    match Newest(user, k, v)
    case None => NotFound
    case Some(s) => if user[s].slot.Inline? then Found(user[s].slot.value) else NotFound
  }

  ghost predicate VisibleAt(h: History, s: nat, v: nat) {
    s in h && Newest(h, h[s].key, v) == Some(s)
  }

  /** Every index a reader can see names a file that has not been removed. */
  ghost predicate NoDangling(st: State) {
    forall v, s :: IsView(st, v) && VisibleAt(st.hist, s, v) && st.hist[s].slot.Index? ==>
      st.hist[s].slot.loc.file in st.files
  }

  // ---- steps ----

  datatype Step =
    | UserPut(key: Key, value: Value)
    | UserDelete(key: Key)
    | TakeSnapshot
    | ReleaseSnapshot(snapshot: nat)
    | Compact(dropped: set<nat>)
    | SepBegin(id: nat, flush: bool, seqs: seq<nat>)
    | SepAdd(id: nat)
    | SepInstall(id: nat)
    | SepDone(id: nat, touched: set<nat>)
    | GcPick(id: nat, inputs: set<nat>)
    | GcCheck(id: nat, loc: Loc, roll: bool)
    | GcInstall(id: nat)
    | GcRewrite(id: nat)
    | GcReadSeq(id: nat)
    | GcFinish(id: nat)
    | GcAbort(id: nat)
    | GcFail(id: nat, deleted: set<nat>)
    | Purge

  function Locs(disk: map<nat, seq<Record>>, fs: set<nat>): (r: set<Loc>)
    ensures forall loc :: loc in r <==> loc.file in fs && OnDisk(disk, loc)
  {
    set f, i | f in fs && f in disk && 0 <= i < |disk[f]| :: Loc(f, i)
  }

  /** Applies one event to those of `fs` that are known files. */
  function TransitAll(files: map<nat, Meta>, fs: set<nat>, e: FileEvent): map<nat, Meta> {
    map f | f in files :: if f in fs then files[f].(state := Transit(files[f].state, e)) else files[f]
  }

  predicate TransitAllowed(files: map<nat, Meta>, fs: set<nat>, e: FileEvent) {
    forall f :: f in fs && f in files ==> Allowed(files[f].state, e)
  }

  function AddFiles(files: map<nat, Meta>, fs: set<nat>, e: FileEvent): map<nat, Meta> {
    files + map f | f in fs :: Meta(Transit(Init, e), 0)
  }

  /** MarkFileObsolete on every input file. */
  function MarkObsolete(files: map<nat, Meta>, fs: set<nat>, seqno: nat): map<nat, Meta> {
    map f | f in files :: if f in fs then Meta(Transit(files[f].state, Delete), seqno) else files[f]
  }

  predicate BelowSnapshots(snaps: multiset<nat>, seqno: nat) {
    forall v :: v in snaps ==> seqno < v
  }

  /** Removes the obsolete files whose obsolete sequence is below every snapshot in `snaps`. */
  function PurgeFiles(files: map<nat, Meta>, snaps: multiset<nat>): map<nat, Meta> {
    map f | f in files && !(files[f].state == Obsolete && BelowSnapshots(snaps, files[f].obsoleteSeq)) :: files[f]
  }

  /** Compaction may drop entries, but for every reader the newest entry of a key stays the newest,
      or was a deletion and nothing older is left. */
  ghost predicate DropIsInvisible(st: State, dropped: set<nat>) {
    var h' := st.hist - dropped;
    forall v, k :: IsView(st, v) ==>
      var n, n' := Newest(st.hist, k, v), Newest(h', k, v);
      n' == n || (n.Some? && st.hist[n.value].slot == Tombstone && n' == None)
  }

  predicate InFlight(st: State, s: nat) {
    exists id :: id in st.seps && st.seps[id].phase != Installed && s in st.seps[id].seqs
  }

  function RecordsOf(h: History, seqs: seq<nat>): (r: seq<Record>)
    requires forall s :: s in seqs ==> s in h && h[s].slot.Inline?
    ensures |r| == |seqs|
    ensures forall i :: 0 <= i < |r| ==> r[i] == Record(h[seqs[i]].key, h[seqs[i]].slot.value)
  {
    seq(|seqs|, i requires 0 <= i < |seqs| => Record(h[seqs[i]].key, h[seqs[i]].slot.value))
  }

  /** The entry at each separated sequence becomes an index to its record. */
  function InstallIndexes(h: History, file: nat, seqs: seq<nat>): History {
    map s | s in h :: if s in seqs then Entry(h[s].key, Index(Loc(file, Position(seqs, s)))) else h[s]
  }

  function Position(seqs: seq<nat>, s: nat): (i: nat)
    requires s in seqs
    ensures i < |seqs| && seqs[i] == s
  {
    if seqs[0] == s then 0 else 1 + Position(seqs[1..], s)
  }

  /** DiscardEntry: the record is live when the key's newest entry is this very index. */
  predicate IsLive(st: State, loc: Loc)
    requires OnDisk(st.disk, loc)
  {
    var n := Newest(st.hist, st.disk[loc.file][loc.rec].key, st.last);
    n.Some? && st.hist[n.value].slot == Index(loc)
  }

  // ---- user and reader steps ----

  function Push(st: State, e: Entry): State {
    st.(hist := st.hist[st.last + 1 := e], last := st.last + 1)
  }

  function UserWrite(st: State, e: Entry): State {
    Push(st, e).(user := st.user[st.last + 1 := e])
  }

  function Snapshot(st: State): State {
    st.(snaps := st.snaps + multiset{st.last})
  }

  function Release(st: State, v: nat): State {
    st.(snaps := st.snaps - multiset{v})
  }

  function DropEntries(st: State, dropped: set<nat>): State {
    st.(hist := st.hist - dropped)
  }

  // ---- separation steps ----

  predicate CanBegin(st: State, id: nat, seqs: seq<nat>) {
    && id !in st.seps && Order.Distinct(seqs)
    && forall s :: s in seqs ==> s in st.hist && st.hist[s].slot.Inline? && !InFlight(st, s)
  }

  function Begin(st: State, id: nat, flush: bool, seqs: seq<nat>): State
    requires CanBegin(st, id, seqs)
  {
    st.(disk := st.disk[st.nextFile := RecordsOf(st.hist, seqs)],
        nextFile := st.nextFile + 1,
        seps := st.seps[id := Separation(flush, st.nextFile, seqs, Built)])
  }

  predicate InPhase(st: State, id: nat, phase: SepPhase) {
    id in st.seps && st.seps[id].phase == phase
  }

  /** BatchFinishFiles: the new blob file becomes known before any SST refers to it. */
  function AddSeparated(st: State, id: nat): State
    requires InPhase(st, id, Built)
  {
    st.(files := AddFiles(st.files, {st.seps[id].file}, FlushOrCompactionOutput),
        seps := st.seps[id := st.seps[id].(phase := Added)])
  }

  /** The new SST replaces the memtable or the input SSTs. */
  function InstallSeparated(st: State, id: nat): State
    requires InPhase(st, id, Added)
  {
    st.(hist := InstallIndexes(st.hist, st.seps[id].file, st.seps[id].seqs),
        seps := st.seps[id := st.seps[id].(phase := Installed)])
  }

  /** A flush reports every blob file its SST refers to, so also outputs of collections. */
  predicate CanComplete(st: State, id: nat, touched: set<nat>) {
    && InPhase(st, id, Installed)
    && forall i :: i in st.seps && i != id ==> st.seps[i].file !in touched
  }

  function Complete(st: State, id: nat, touched: set<nat>): State
    requires CanComplete(st, id, touched)
  {
    var sep := st.seps[id];
    st.(files := if sep.flush then TransitAll(st.files, {sep.file} + touched, FlushCompleted)
                 else TransitAll(st.files, {sep.file}, CompactionCompleted),
        seps := st.seps - {id})
  }

  // ---- garbage collection steps ----

  predicate CanPick(st: State, id: nat, inputs: set<nat>) {
    && id !in st.jobs && inputs != {}
    && forall f :: f in inputs ==> f in st.files && st.files[f].state == Normal
  }

  function Pick(st: State, id: nat, inputs: set<nat>): State {
    st.(files := TransitAll(st.files, inputs, GCBegin),
        jobs := st.jobs[id := GcJob(inputs, Locs(st.disk, inputs), {}, None, [], 0, Scan)])
  }

  /** The record and the open output are on disk.  Runs never reach a state where this fails. */
  predicate CanCheck(st: State, id: nat, loc: Loc) {
    && id in st.jobs && OnDisk(st.disk, loc)
    && (st.jobs[id].current.Some? ==> st.jobs[id].current.value in st.disk)
  }

  function CheckRecord(st: State, id: nat, loc: Loc, roll: bool): State
    requires CanCheck(st, id, loc)
  {
    var j := st.jobs[id].(todo := st.jobs[id].todo - {loc});
    if IsLive(st, loc) then Relocate(st, id, j, loc, roll) else st.(jobs := st.jobs[id := j])
  }

  /** Appends a live record to the open output, or to a new one when there is none or it is full. */
  function Relocate(st: State, id: nat, j: GcJob, loc: Loc, roll: bool): State
    requires OnDisk(st.disk, loc) && (j.current.Some? ==> j.current.value in st.disk)
  {
    var record := st.disk[loc.file][loc.rec];
    if j.current == None || roll then
      var to := Loc(st.nextFile, 0);
      st.(disk := st.disk[st.nextFile := [record]],
          nextFile := st.nextFile + 1,
          jobs := st.jobs[id := j.(outputs := j.outputs + {to.file}, current := Some(to.file),
                                   moves := j.moves + [Move(loc, to, record.key)])])
    else
      var file := j.current.value;
      var to := Loc(file, |st.disk[file]|);
      st.(disk := st.disk[file := st.disk[file] + [record]],
          jobs := st.jobs[id := j.(moves := j.moves + [Move(loc, to, record.key)])])
  }

  function InstallOutputs(st: State, id: nat): State
    requires id in st.jobs
  {
    st.(files := AddFiles(st.files, st.jobs[id].outputs, GCOutput),
        jobs := st.jobs[id := st.jobs[id].(phase := Rewrite)])
  }

  predicate CanRewrite(st: State, id: nat) {
    id in st.jobs && st.jobs[id].phase == Rewrite && st.jobs[id].next < |st.jobs[id].moves|
  }

  function RewriteKey(st: State, id: nat): State
    requires CanRewrite(st, id)
  {
    var j := st.jobs[id];
    var m := j.moves[j.next];
    Push(st, Entry(m.key, Index(m.to))).(jobs := st.jobs[id := j.(next := j.next + 1)])
  }

  predicate CanReadSeq(st: State, id: nat) {
    id in st.jobs && st.jobs[id].phase == Rewrite && st.jobs[id].next == |st.jobs[id].moves|
  }

  function ReadObsoleteSeq(st: State, id: nat): State
    requires id in st.jobs
  {
    st.(jobs := st.jobs[id := st.jobs[id].(phase := Deleting(st.last))])
  }

  predicate CanDelete(st: State, id: nat) {
    id in st.jobs && st.jobs[id].phase.Deleting?
  }

  /** DeleteInputBlobFiles, then ReleaseGcFiles, under one hold of the mutex. */
  function FinishGc(st: State, id: nat): State
    requires CanDelete(st, id)
  {
    var j := st.jobs[id];
    st.(files := TransitAll(MarkObsolete(st.files, j.inputs, j.phase.obsoleteSeq), j.inputs + j.outputs, GCCompleted),
        jobs := st.jobs - {id})
  }

  /** A job that stops early only releases its files. */
  function AbortGc(st: State, id: nat): State
    requires id in st.jobs
  {
    st.(files := TransitAll(st.files, st.jobs[id].inputs + st.jobs[id].outputs, GCCompleted), jobs := st.jobs - {id})
  }

  /** An output could not be finished; the outputs in `deleted` could be deleted. */
  predicate CanFail(st: State, id: nat, deleted: set<nat>) {
    id in st.jobs && st.jobs[id].phase == Scan && st.jobs[id].todo == {} && deleted <= st.jobs[id].outputs
  }

  /** A failed installation that is noticed: the outputs are deleted and the job releases its files. */
  function FailGc(st: State, id: nat, deleted: set<nat>): State
    requires id in st.jobs
  {
    AbortGc(st, id).(disk := st.disk - deleted)
  }

  function PurgeObsolete(st: State): State {
    st.(files := PurgeFiles(st.files, st.snaps))
  }

  // ---- runs ----

  ghost predicate Enabled(st: State, step: Step) {
    match step
    case UserPut(_, _) => true
    case UserDelete(_) => true
    case TakeSnapshot => true
    case ReleaseSnapshot(v) => v in st.snaps
    case Compact(dropped) => DropIsInvisible(st, dropped)
    case SepBegin(id, _, seqs) => CanBegin(st, id, seqs)
    case SepAdd(id) => InPhase(st, id, Built)
    case SepInstall(id) => InPhase(st, id, Added)
    case SepDone(id, touched) => CanComplete(st, id, touched)
    case GcPick(id, inputs) => CanPick(st, id, inputs)
    case GcCheck(id, loc, _) =>
      id in st.jobs && st.jobs[id].phase == Scan && loc in st.jobs[id].todo && CanCheck(st, id, loc)
    case GcInstall(id) => id in st.jobs && st.jobs[id].phase == Scan && st.jobs[id].todo == {}
    case GcRewrite(id) => CanRewrite(st, id)
    case GcReadSeq(id) => CanReadSeq(st, id)
    case GcFinish(id) => CanDelete(st, id)
    case GcAbort(id) => id in st.jobs
    case GcFail(id, deleted) => CanFail(st, id, deleted)
    case Purge => true
  }

  ghost function Apply(st: State, step: Step): State
    requires Enabled(st, step)
  {
    match step
    case UserPut(k, x) => UserWrite(st, Entry(k, Inline(x)))
    case UserDelete(k) => UserWrite(st, Entry(k, Tombstone))
    case TakeSnapshot => Snapshot(st)
    case ReleaseSnapshot(v) => Release(st, v)
    case Compact(dropped) => DropEntries(st, dropped)
    case SepBegin(id, flush, seqs) => Begin(st, id, flush, seqs)
    case SepAdd(id) => AddSeparated(st, id)
    case SepInstall(id) => InstallSeparated(st, id)
    case SepDone(id, touched) => Complete(st, id, touched)
    case GcPick(id, inputs) => Pick(st, id, inputs)
    case GcCheck(id, loc, roll) => CheckRecord(st, id, loc, roll)
    case GcInstall(id) => InstallOutputs(st, id)
    case GcRewrite(id) => RewriteKey(st, id)
    case GcReadSeq(id) => ReadObsoleteSeq(st, id)
    case GcFinish(id) => FinishGc(st, id)
    case GcAbort(id) => AbortGc(st, id)
    case GcFail(id, deleted) => FailGc(st, id, deleted)
    case Purge => PurgeObsolete(st)
  }

  ghost predicate Legal(st: State, steps: seq<Step>)
    decreases |steps|
  {
    steps == [] || (Enabled(st, steps[0]) && Legal(Apply(st, steps[0]), steps[1..]))
  }

  ghost function Run(st: State, steps: seq<Step>): State
    requires Legal(st, steps)
    decreases |steps|
  {
    if steps == [] then st else Run(Apply(st, steps[0]), steps[1..])
  }
}
