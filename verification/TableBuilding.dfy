/** Building a table while values move between the table and blob files. */
module TableBuilding {
  import opened Order
  import opened Coding
  import opened FileStates
  import VersionEdits
  import BlobFormat

  type UserKey(==, !new)

  datatype Kind = Value | BlobIndex | Other

  datatype InternalKey = InternalKey(user: UserKey, sequence: nat, kind: Kind)

  type Index = BlobFormat.Index

  /** A value; or bytes that decode to an index; or bytes that should decode to one and do not. */
  datatype Payload = Raw(value: Bytes) | Pointer(index: Index) | Garbled

  datatype Entry = Entry(key: InternalKey, payload: Payload)

  /** An entry offered to the builder; None stands for a key that does not parse. */
  datatype Input = Input(key: Option<InternalKey>, payload: Payload)

  datatype RunMode = Normal | ReadOnly | Fallback

  datatype Options = Options(runMode: RunMode, minBlobSize: nat, levelMerge: bool, mergeLowLevel: bool,
                             targetLevel: int, mergeLevel: int, targetSize: nat)

  datatype Fixed = Fixed(kind: nat, level: int)

  /**
   * What the outside does during one call: the metadata and present state of the blob file an index
   * names, the size of an encoded record, the number of a new file, and which operations fail.
   */
  datatype Outside = Outside(found: Option<Fixed>, state: FileState, prefetchOk: bool, readOk: bool,
                             newFile: Option<nat>, recordSize: nat, appendOk: bool, finishOk: bool,
                             deleteOk: bool, baseOk: bool)

  /** The blob file being written. */
  datatype Open = Open(file: nat, offset: nat, ok: bool)

  /**
   * `records` holds what was written to new blob files, `finished` the numbers of the complete ones
   * and `sizes` their file sizes.
   */
  datatype State = State(status: bool, baseOk: bool, base: seq<Entry>, open: Option<Open>,
                         records: map<Index, Bytes>, finished: seq<nat>, sizes: map<nat, nat>,
                         encountered: map<nat, Option<Fixed>>, merging: set<nat>)

  predicate Ok(s: State) {
    s.status && s.baseOk && (s.open.Some? ==> s.open.value.ok)
  }

  // Operations.

  function BaseAdd(s: State, e: Entry, out: Outside): State {
    if s.baseOk then s.(base := s.base + [e], baseOk := out.baseOk) else s
  }

  /** Closes the open blob file, or asks for its deletion if anything failed before. */
  function FinishBlobFile(s: State, out: Outside): State {
    if s.open.None? then s else
    var o := s.open.value;
    var closed := s.(open := Some(o.(ok := o.ok && out.finishOk)));
    if Ok(closed) then
      s.(open := None, finished := s.finished + [o.file], sizes := s.sizes[o.file := o.offset + BlobFormat.FOOTER_SIZE])
    else closed.(status := out.deleteOk)
  }

  datatype Added = Added(state: State, index: Option<Index>)

  function Opened(s: State, out: Outside): State {
    if s.open.Some? then s
    else if out.newFile.None? then s.(status := false)
    else s.(open := Some(Open(out.newFile.value, BlobFormat.HEADER_SIZE, true)))
  }

  function Written(s: State, value: Bytes, out: Outside): State
    requires s.open.Some?
  {
    var o := s.open.value;
    s.(open := Some(Open(o.file, o.offset + out.recordSize, out.appendOk)),
       records := if out.appendOk then s.records[BlobFormat.Index(o.file, o.offset, out.recordSize) := value] else s.records)
  }

  function AddBlob(s: State, value: Bytes, opts: Options, out: Outside): Added
    requires Ok(s)
  {
    var ready := Opened(s, out);
    if !Ok(ready) then Added(ready, None) else
    var o := ready.open.value;
    var written := Written(ready, value, out);
    if !Ok(written) then Added(written, None) else
    Added(if o.offset + out.recordSize >= opts.targetSize then FinishBlobFile(written, out) else written,
          Some(BlobFormat.Index(o.file, o.offset, out.recordSize)))
  }

  function Read(store: map<Index, Bytes>, index: Index, out: Outside): Option<Bytes> {
    if out.readOk && index in store then Some(store[index]) else None
  }

  /** A value to be kept in a blob file. */
  function AddSeparated(s: State, key: InternalKey, value: Bytes, opts: Options, out: Outside): State
    requires Ok(s)
  {
    var r := AddBlob(s, value, opts, out);
    if r.index.Some? && Ok(r.state) then BaseAdd(r.state, Entry(key.(kind := BlobIndex), Pointer(r.index.value)), out)
    else r.state
  }

  /** An index whose value goes back into the table. */
  function AddFallback(s: State, key: InternalKey, payload: Payload, store: map<Index, Bytes>, out: Outside): State
    requires Ok(s)
  {
    if !payload.Pointer? then s.(status := false) else
    var read := Read(store, payload.index, out);
    BaseAdd(s, if read.Some? then Entry(key.(kind := Value), Raw(read.value)) else Entry(key, payload), out)
  }

  predicate ShouldMerge(file: Option<Fixed>, state: FileState, opts: Options) {
    && file.Some? && file.value.kind == VersionEdits.SORTED
    && ((opts.targetLevel >= opts.mergeLevel && file.value.level < opts.targetLevel) || state.ToMerge? || state.ToGC?)
  }

  function Encounter(s: State, file: nat, out: Outside): State {
    if file in s.encountered then s else s.(encountered := s.encountered[file := out.found])
  }

  /** An index whose value may move to a new blob file. */
  function AddMerging(s: State, key: InternalKey, payload: Payload, store: map<Index, Bytes>, opts: Options, out: Outside): State
    requires Ok(s)
  {
    if !payload.Pointer? then s.(status := false) else
    var met := Encounter(s, payload.index.file, out);
    if !ShouldMerge(met.encountered[payload.index.file], out.state, opts) then BaseAdd(met, Entry(key, payload), out)
    else if payload.index.file !in met.merging && !out.prefetchOk then BaseAdd(met.(status := false), Entry(key, payload), out)
    else MergeValue(met.(merging := met.merging + {payload.index.file}), key, payload, store, opts, out)
  }

  function MergeValue(s: State, key: InternalKey, payload: Payload, store: map<Index, Bytes>, opts: Options, out: Outside): State
    requires Ok(s) && payload.Pointer?
  {
    var read := Read(store, payload.index, out);
    if read.None? then BaseAdd(s, Entry(key, payload), out) else
    var r := AddBlob(s, read.value, opts, out);
    if r.index.Some? && Ok(r.state) then BaseAdd(r.state, Entry(key.(kind := BlobIndex), Pointer(r.index.value)), out)
    else BaseAdd(r.state, Entry(key, payload), out)
  }

  predicate Merges(opts: Options) {
    opts.levelMerge && (opts.targetLevel >= opts.mergeLevel || opts.mergeLowLevel) && opts.runMode.Normal?
  }

  function Add(s: State, input: Input, store: map<Index, Bytes>, opts: Options, out: Outside): State {
    if !Ok(s) then s
    else if input.key.None? then s.(status := false)
    else
      var key, payload := input.key.value, input.payload;
      if key.kind.BlobIndex? && opts.runMode.Fallback? then AddFallback(s, key, payload, store, out)
      else if key.kind.Value? && payload.Raw? && |payload.value| >= opts.minBlobSize && opts.runMode.Normal? then
        AddSeparated(s, key, payload.value, opts, out)
      else if key.kind.BlobIndex? && Merges(opts) then AddMerging(s, key, payload, store, opts, out)
      else BaseAdd(s, Entry(key, payload), out)
  }

  /** Completes table and blob files. The old status is lost: the result is that of registering the files. */
  function Finish(s: State, out: Outside, registered: bool): State {
    var based := s.(baseOk := s.baseOk && out.baseOk);
    FinishBlobFile(based, out).(status := registered)
  }

  ghost predicate Initial(s: State) {
    && s.status && s.baseOk && s.open.None? && s.base == [] && s.records == map[] && s.finished == []
    && s.sizes == map[]
    && s.encountered == map[] && s.merging == {}
  }
}
