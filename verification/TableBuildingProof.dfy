/** What a finished table means, compared with the entries it was built from. */
module TableBuildingProof {
  import opened Order
  import opened Coding
  import opened TableBuilding
  import BlobFormat

  /** What a reader gets: a value, or whatever entry is not a value or does not resolve. */
  datatype Meaning = Val(value: Bytes) | Opaque(kind: Kind, payload: Payload)

  function Means(e: Entry, store: map<Index, Bytes>): Meaning {
    if e.key.kind.Value? && e.payload.Raw? then Val(e.payload.value)
    else if e.key.kind.BlobIndex? && e.payload.Pointer? && e.payload.index in store then Val(store[e.payload.index])
    else Opaque(e.key.kind, e.payload)
  }

  /** The output entry stands for the input entry: same user key, same sequence, same meaning. */
  predicate Keeps(input: Input, e: Entry, before: map<Index, Bytes>, after: map<Index, Bytes>) {
    && input.key.Some? && e.key.user == input.key.value.user && e.key.sequence == input.key.value.sequence
    && Means(e, after) == Means(Entry(input.key.value, input.payload), before)
  }

  predicate PointsTo(e: Entry, index: Index) {
    e.key.kind.BlobIndex? && e.payload == Pointer(index)
  }

  // What the surroundings guarantee: blob files from `first` on are new ones.

  ghost predicate OldStore(store: map<Index, Bytes>, first: nat) {
    forall i :: i in store ==> i.file < first
  }

  predicate OldInput(input: Input, first: nat) {
    input.payload.Pointer? ==> input.payload.index.file < first
  }

  predicate GoodOutside(s: State, out: Outside, first: nat) {
    && out.recordSize > 0
    && (out.newFile.Some? ==> out.newFile.value >= first && out.newFile.value !in s.finished)
  }

  // Invariant.

  ghost predicate Faithful(inputs: seq<Input>, base: seq<Entry>, store: map<Index, Bytes>, records: map<Index, Bytes>) {
    |base| <= |inputs| && forall j :: 0 <= j < |base| ==> Keeps(inputs[j], base[j], store, store + records)
  }

  predicate InFile(i: Index, open: Option<Open>, finished: seq<nat>) {
    i.file in finished || (open.Some? && i.file == open.value.file && i.offset + i.size <= open.value.offset)
  }

  ghost predicate Files(open: Option<Open>, records: map<Index, Bytes>, finished: seq<nat>, first: nat) {
    && (forall i :: i in records ==> i.file >= first && i.size > 0 && InFile(i, open, finished))
    && (open.Some? ==> open.value.file >= first && open.value.file !in finished)
  }

  /** References to new files resolve, and no record is referenced twice. */
  ghost predicate Refs(base: seq<Entry>, records: map<Index, Bytes>, first: nat) {
    && (forall j :: 0 <= j < |base| && base[j].payload.Pointer? && base[j].payload.index.file >= first ==>
          base[j].key.kind.BlobIndex? && base[j].payload.index in records)
    && (forall j, k :: 0 <= j < k < |base| && base[j].payload.Pointer? && base[j].payload.index.file >= first ==>
          base[j].payload != base[k].payload)
  }

  ghost predicate Referenced(base: seq<Entry>, i: Index) {
    exists j :: 0 <= j < |base| && PointsTo(base[j], i)
  }

  ghost predicate AllReferenced(base: seq<Entry>, records: map<Index, Bytes>) {
    forall i :: i in records ==> Referenced(base, i)
  }

  ghost predicate OpenUsed(s: State) {
    s.open.Some? && s.open.value.ok ==> exists i :: i in s.records && i.file == s.open.value.file && Referenced(s.base, i)
  }

  ghost predicate Inv(s: State, inputs: seq<Input>, store: map<Index, Bytes>, first: nat) {
    && Faithful(inputs, s.base, store, s.records)
    && Files(s.open, s.records, s.finished, first)
    && Refs(s.base, s.records, first)
    && OpenUsed(s)
    && (Ok(s) ==> |s.base| == |inputs| && AllReferenced(s.base, s.records))
  }

  // Single entries.

  lemma AsIsKeeps(input: Input, store: map<Index, Bytes>, records: map<Index, Bytes>, first: nat)
    requires input.key.Some? && OldInput(input, first) && forall i :: i in records ==> i.file >= first
    ensures Keeps(input, Entry(input.key.value, input.payload), store, store + records)
  {
  }

  lemma KeepsWithMore(input: Input, e: Entry, store: map<Index, Bytes>, records: map<Index, Bytes>, i: Index, v: Bytes)
    requires Keeps(input, e, store, store + records) && !PointsTo(e, i)
    ensures Keeps(input, e, store, store + records[i := v])
  {
  }

  // The base table grows by at most one entry per input.

  lemma FaithfulMore(inputs: seq<Input>, input: Input, base: seq<Entry>, e: Entry, store: map<Index, Bytes>, records: map<Index, Bytes>)
    requires Faithful(inputs, base, store, records) && |base| == |inputs| && Keeps(input, e, store, store + records)
    ensures Faithful(inputs + [input], base + [e], store, records)
  {
  }

  lemma FaithfulDropped(inputs: seq<Input>, input: Input, base: seq<Entry>, store: map<Index, Bytes>, records: map<Index, Bytes>)
    requires Faithful(inputs, base, store, records)
    ensures Faithful(inputs + [input], base, store, records)
  {
  }

  lemma FaithfulWithRecord(inputs: seq<Input>, base: seq<Entry>, store: map<Index, Bytes>, records: map<Index, Bytes>,
                           first: nat, i: Index, v: Bytes)
    requires Faithful(inputs, base, store, records) && Refs(base, records, first) && i !in records && i.file >= first
    ensures Faithful(inputs, base, store, records[i := v])
  {
    forall j | 0 <= j < |base| ensures Keeps(inputs[j], base[j], store, store + records[i := v]) {
      KeepsWithMore(inputs[j], base[j], store, records, i, v);
    }
  }

  lemma ReferencedMore(base: seq<Entry>, e: Entry, i: Index)
    requires Referenced(base, i)
    ensures Referenced(base + [e], i)
  {
    var j :| 0 <= j < |base| && PointsTo(base[j], i);
    assert (base + [e])[j] == base[j];
  }

  lemma RefsMore(base: seq<Entry>, e: Entry, records: map<Index, Bytes>, first: nat)
    requires Refs(base, records, first) && (e.payload.Pointer? ==> e.payload.index.file < first)
    ensures Refs(base + [e], records, first)
  {
  }

  // Writing a record.

  ghost predicate Wrote(s: State, t: State, i: Index, v: Bytes) {
    i !in s.records && t.records == s.records[i := v]
  }

  /**
   * What AddBlob does: the table is untouched and every record still lies in a known file; with an
   * index the value was written at a place of its own, in the file that stays open if one does;
   * after a failure no usable blob file is open.
   */
  ghost predicate BlobEffect(s: State, r: Added, value: Bytes, first: nat) {
    && r.state.base == s.base && r.state.baseOk
    && Files(r.state.open, r.state.records, r.state.finished, first)
    && (r.index.None? ==> r.state.records == s.records && !Ok(r.state))
    && (r.index.Some? ==> Wrote(s, r.state, r.index.value, value) && r.index.value.file >= first)
    && (r.index.Some? && r.state.open.Some? ==> r.index.value.file == r.state.open.value.file)
    && (!Ok(r.state) && r.state.open.Some? ==> !r.state.open.value.ok)
  }

  lemma AddBlobEffect(s: State, value: Bytes, opts: Options, out: Outside, first: nat)
    requires Ok(s) && Files(s.open, s.records, s.finished, first) && GoodOutside(s, out, first)
    ensures BlobEffect(s, AddBlob(s, value, opts, out), value, first)
  {
    var ready := Opened(s, out);
    if Ok(ready) {
      WriteEffect(ready, value, out, first);
      var w := Written(ready, value, out);
      if Ok(w) { FinishEffect(w, out, first); }
    }
  }

  lemma WriteEffect(s: State, value: Bytes, out: Outside, first: nat)
    requires s.open.Some? && Files(s.open, s.records, s.finished, first) && out.recordSize > 0
    ensures var o, t := s.open.value, Written(s, value, out);
      && Files(t.open, t.records, t.finished, first)
      && BlobFormat.Index(o.file, o.offset, out.recordSize) !in s.records
  {
  }

  lemma FinishEffect(s: State, out: Outside, first: nat)
    requires Files(s.open, s.records, s.finished, first)
    ensures var t := FinishBlobFile(s, out);
      && t.base == s.base && t.records == s.records && t.baseOk == s.baseOk
      && Files(t.open, t.records, t.finished, first)
      && (t.open.Some? ==> s.open.Some? && t.open.value.file == s.open.value.file)
      && (Ok(s) && t.open.Some? ==> !t.open.value.ok)
  {
  }

  // One Add, by what it does to the table and to the records.

  lemma OpenUsedMore(s: State, t: State, e: Entry)
    requires OpenUsed(s) && t.base == s.base + [e] && t.records == s.records && t.open == s.open
    ensures OpenUsed(t)
  {
    if s.open.Some? && s.open.value.ok {
      var i :| i in s.records && i.file == s.open.value.file && Referenced(s.base, i);
      ReferencedMore(s.base, e, i);
    }
  }

  lemma AllReferencedMore(base: seq<Entry>, e: Entry, records: map<Index, Bytes>)
    requires AllReferenced(base, records)
    ensures AllReferenced(base + [e], records)
  {
    forall i | i in records ensures Referenced(base + [e], i) { ReferencedMore(base, e, i); }
  }

  /** An entry that references no new file. */
  lemma OldEntryInv(s: State, t: State, inputs: seq<Input>, input: Input, e: Entry, store: map<Index, Bytes>, first: nat)
    requires Inv(s, inputs, store, first) && Ok(s)
    requires t.base == s.base + [e] && t.records == s.records && t.open == s.open && t.finished == s.finished
    requires Keeps(input, e, store, store + s.records) && (e.payload.Pointer? ==> e.payload.index.file < first)
    ensures Inv(t, inputs + [input], store, first)
  {
    FaithfulMore(inputs, input, s.base, e, store, s.records);
    RefsMore(s.base, e, s.records, first);
    OpenUsedMore(s, t, e);
    AllReferencedMore(s.base, e, s.records);
  }

  lemma RefsWithRecord(base: seq<Entry>, e: Entry, records: map<Index, Bytes>, first: nat, i: Index, v: Bytes)
    requires Refs(base, records, first) && i !in records && PointsTo(e, i)
    ensures Refs(base + [e], records[i := v], first)
  {
  }

  lemma AllReferencedWithRecord(base: seq<Entry>, e: Entry, records: map<Index, Bytes>, i: Index, v: Bytes)
    requires AllReferenced(base, records) && PointsTo(e, i)
    ensures AllReferenced(base + [e], records[i := v])
  {
    assert (base + [e])[|base|] == e;
    forall k | k in records ensures Referenced(base + [e], k) { ReferencedMore(base, e, k); }
  }

  /** An entry that references the record just written. */
  lemma NewEntryInv(s: State, t: State, inputs: seq<Input>, input: Input, e: Entry, i: Index, v: Bytes, store: map<Index, Bytes>, first: nat)
    requires Inv(s, inputs, store, first) && Ok(s)
    requires t.base == s.base + [e] && Wrote(s, t, i, v) && PointsTo(e, i) && i.file >= first
    requires Files(t.open, t.records, t.finished, first) && (t.open.Some? ==> t.open.value.file == i.file)
    requires Keeps(input, e, store, store + t.records)
    ensures Inv(t, inputs + [input], store, first)
  {
    FaithfulWithRecord(inputs, s.base, store, s.records, first, i, v);
    FaithfulMore(inputs, input, s.base, e, store, t.records);
    RefsWithRecord(s.base, e, s.records, first, i, v);
    AllReferencedWithRecord(s.base, e, s.records, i, v);
    assert Referenced(t.base, i);
  }

  ghost predicate SameOrWrote(s: State, t: State, i: Index, v: Bytes) {
    t.records == s.records || Wrote(s, t, i, v)
  }

  lemma RefsSameOrWrote(s: State, t: State, inputs: seq<Input>, i: Index, v: Bytes, store: map<Index, Bytes>, first: nat)
    requires Inv(s, inputs, store, first) && SameOrWrote(s, t, i, v) && i.file >= first
    ensures Faithful(inputs, s.base, store, t.records) && Refs(s.base, t.records, first)
  {
    if Wrote(s, t, i, v) { FaithfulWithRecord(inputs, s.base, store, s.records, first, i, v); }
  }

  /** The call failed and added nothing. */
  lemma DroppedInv(s: State, t: State, inputs: seq<Input>, input: Input, i: Index, v: Bytes, store: map<Index, Bytes>, first: nat)
    requires Inv(s, inputs, store, first) && !Ok(t)
    requires t.base == s.base && SameOrWrote(s, t, i, v) && i.file >= first
    requires Files(t.open, t.records, t.finished, first) && OpenUsed(t)
    ensures Inv(t, inputs + [input], store, first)
  {
    RefsSameOrWrote(s, t, inputs, i, v, store, first);
    FaithfulDropped(inputs, input, s.base, store, t.records);
  }

  /** The call failed to move the value and added the entry as it was. */
  lemma FailedInv(s: State, t: State, inputs: seq<Input>, input: Input, i: Index, v: Bytes, store: map<Index, Bytes>, first: nat)
    requires Inv(s, inputs, store, first) && Ok(s) && !Ok(t)
    requires input.key.Some? && OldInput(input, first)
    requires t.base == s.base + [Entry(input.key.value, input.payload)] && SameOrWrote(s, t, i, v) && i.file >= first
    requires Files(t.open, t.records, t.finished, first) && OpenUsed(t)
    ensures Inv(t, inputs + [input], store, first)
  {
    var e := Entry(input.key.value, input.payload);
    RefsSameOrWrote(s, t, inputs, i, v, store, first);
    AsIsKeeps(input, store, t.records, first);
    FaithfulMore(inputs, input, s.base, e, store, t.records);
    RefsMore(s.base, e, t.records, first);
  }

  // The branches of Add.

  lemma AsIsInv(s: State, t: State, inputs: seq<Input>, input: Input, store: map<Index, Bytes>, first: nat)
    requires Inv(s, inputs, store, first) && Ok(s) && input.key.Some? && OldInput(input, first)
    requires t.base == s.base + [Entry(input.key.value, input.payload)]
    requires t.records == s.records && t.open == s.open && t.finished == s.finished
    ensures Inv(t, inputs + [input], store, first)
  {
    AsIsKeeps(input, store, s.records, first);
    OldEntryInv(s, t, inputs, input, Entry(input.key.value, input.payload), store, first);
  }

  lemma BadInputInv(s: State, inputs: seq<Input>, input: Input, store: map<Index, Bytes>, first: nat)
    requires Inv(s, inputs, store, first)
    ensures Inv(s.(status := false), inputs + [input], store, first)
  {
    FaithfulDropped(inputs, input, s.base, store, s.records);
  }

  lemma FallbackInv(s: State, inputs: seq<Input>, input: Input, store: map<Index, Bytes>, out: Outside, first: nat)
    requires Inv(s, inputs, store, first) && Ok(s) && OldInput(input, first)
    requires input.key.Some? && input.key.value.kind.BlobIndex?
    ensures Inv(AddFallback(s, input.key.value, input.payload, store, out), inputs + [input], store, first)
  {
    var key := input.key.value;
    var t := AddFallback(s, key, input.payload, store, out);
    if !input.payload.Pointer? {
      BadInputInv(s, inputs, input, store, first);
    } else {
      var read := Read(store, input.payload.index, out);
      if read.Some? {
        OldEntryInv(s, t, inputs, input, Entry(key.(kind := Value), Raw(read.value)), store, first);
      } else {
        AsIsInv(s, t, inputs, input, store, first);
      }
    }
  }

  lemma MovedKeeps(input: Input, i: Index, v: Bytes, store: map<Index, Bytes>, records: map<Index, Bytes>)
    requires input.key.Some? && Means(Entry(input.key.value, input.payload), store) == Val(v)
    requires i in records && records[i] == v
    ensures Keeps(input, Entry(input.key.value.(kind := BlobIndex), Pointer(i)), store, store + records)
  {
  }

  /** The value was written and its index added. */
  lemma MovedInv(s: State, r: Added, t: State, inputs: seq<Input>, input: Input, v: Bytes, store: map<Index, Bytes>, first: nat)
    requires Inv(s, inputs, store, first) && Ok(s) && BlobEffect(s, r, v, first) && r.index.Some?
    requires input.key.Some? && Means(Entry(input.key.value, input.payload), store) == Val(v)
    requires t.base == s.base + [Entry(input.key.value.(kind := BlobIndex), Pointer(r.index.value))]
    requires t.records == r.state.records && t.open == r.state.open && t.finished == r.state.finished
    ensures Inv(t, inputs + [input], store, first)
  {
    MovedKeeps(input, r.index.value, v, store, r.state.records);
    NewEntryInv(s, t, inputs, input, t.base[|s.base|], r.index.value, v, store, first);
  }

  lemma LostUsesNothing(s: State, r: Added, v: Bytes, first: nat, t: State)
    requires BlobEffect(s, r, v, first) && !Ok(r.state) && t.open == r.state.open
    ensures OpenUsed(t) && (t.open.Some? ==> !t.open.value.ok)
  {
  }

  function PlaceOf(r: Added, first: nat): Index {
    if r.index.Some? then r.index.value else BlobFormat.Index(first, 0, 0)
  }

  lemma SeparatedInv(s: State, inputs: seq<Input>, input: Input, store: map<Index, Bytes>, opts: Options, out: Outside, first: nat)
    requires Inv(s, inputs, store, first) && Ok(s) && GoodOutside(s, out, first)
    requires input.key.Some? && input.key.value.kind.Value? && input.payload.Raw?
    ensures Inv(AddSeparated(s, input.key.value, input.payload.value, opts, out), inputs + [input], store, first)
  {
    var key, v := input.key.value, input.payload.value;
    var t := AddSeparated(s, key, v, opts, out);
    var r := AddBlob(s, v, opts, out);
    AddBlobEffect(s, v, opts, out, first);
    if r.index.Some? && Ok(r.state) {
      MovedInv(s, r, t, inputs, input, v, store, first);
    } else {
      LostUsesNothing(s, r, v, first, t);
      DroppedInv(s, t, inputs, input, PlaceOf(r, first), v, store, first);
    }
  }

  /** The outcome of moving a value that was read. */
  lemma MergedInv(s: State, r: Added, t: State, inputs: seq<Input>, input: Input, v: Bytes, store: map<Index, Bytes>, out: Outside, first: nat)
    requires Inv(s, inputs, store, first) && Ok(s) && OldInput(input, first) && BlobEffect(s, r, v, first)
    requires input.key.Some? && Means(Entry(input.key.value, input.payload), store) == Val(v)
    requires t == if r.index.Some? && Ok(r.state)
      then BaseAdd(r.state, Entry(input.key.value.(kind := BlobIndex), Pointer(r.index.value)), out)
      else BaseAdd(r.state, Entry(input.key.value, input.payload), out)
    ensures Inv(t, inputs + [input], store, first)
  {
    if r.index.Some? && Ok(r.state) {
      MovedInv(s, r, t, inputs, input, v, store, first);
    } else {
      LostUsesNothing(s, r, v, first, t);
      FailedInv(s, t, inputs, input, PlaceOf(r, first), v, store, first);
    }
  }

  lemma MergeValueInv(s: State, inputs: seq<Input>, input: Input, store: map<Index, Bytes>, opts: Options, out: Outside, first: nat)
    requires Inv(s, inputs, store, first) && Ok(s) && OldInput(input, first) && GoodOutside(s, out, first)
    requires input.key.Some? && input.key.value.kind.BlobIndex? && input.payload.Pointer?
    ensures Inv(MergeValue(s, input.key.value, input.payload, store, opts, out), inputs + [input], store, first)
  {
    var key, payload := input.key.value, input.payload;
    var t := MergeValue(s, key, payload, store, opts, out);
    var read := Read(store, payload.index, out);
    if read.None? {
      AsIsInv(s, t, inputs, input, store, first);
    } else {
      AddBlobEffect(s, read.value, opts, out, first);
      MergedInv(s, AddBlob(s, read.value, opts, out), t, inputs, input, read.value, store, out, first);
    }
  }

  lemma MergingInv(s: State, inputs: seq<Input>, input: Input, store: map<Index, Bytes>, opts: Options, out: Outside, first: nat)
    requires Inv(s, inputs, store, first) && Ok(s) && OldInput(input, first) && GoodOutside(s, out, first)
    requires input.key.Some? && input.key.value.kind.BlobIndex?
    ensures Inv(AddMerging(s, input.key.value, input.payload, store, opts, out), inputs + [input], store, first)
  {
    var key, payload := input.key.value, input.payload;
    var t := AddMerging(s, key, payload, store, opts, out);
    if !payload.Pointer? {
      BadInputInv(s, inputs, input, store, first);
    } else {
      var met := Encounter(s, payload.index.file, out);
      if !ShouldMerge(met.encountered[payload.index.file], out.state, opts) || (payload.index.file !in met.merging && !out.prefetchOk) {
        AsIsInv(s, t, inputs, input, store, first);
      } else {
        var u := met.(merging := met.merging + {payload.index.file});
        SameTableInv(s, u, inputs, store, first);
        MergeValueInv(u, inputs, input, store, opts, out, first);
      }
    }
  }

  lemma SameTableInv(s: State, t: State, inputs: seq<Input>, store: map<Index, Bytes>, first: nat)
    requires Inv(s, inputs, store, first)
    requires t.status == s.status && t.baseOk == s.baseOk
    requires t.base == s.base && t.records == s.records && t.open == s.open && t.finished == s.finished
    ensures Inv(t, inputs, store, first)
  {
  }

  lemma AddKeepsInv(s: State, inputs: seq<Input>, input: Input, store: map<Index, Bytes>, opts: Options, out: Outside, first: nat)
    requires Inv(s, inputs, store, first) && OldInput(input, first) && GoodOutside(s, out, first)
    ensures Inv(Add(s, input, store, opts, out), inputs + [input], store, first)
  {
    if !Ok(s) || input.key.None? {
      FaithfulDropped(inputs, input, s.base, store, s.records);
    } else if input.key.value.kind.BlobIndex? && opts.runMode.Fallback? {
      FallbackInv(s, inputs, input, store, out, first);
    } else if input.key.value.kind.Value? && input.payload.Raw? && |input.payload.value| >= opts.minBlobSize && opts.runMode.Normal? {
      SeparatedInv(s, inputs, input, store, opts, out, first);
    } else if input.key.value.kind.BlobIndex? && Merges(opts) {
      MergingInv(s, inputs, input, store, opts, out, first);
    } else {
      AsIsInv(s, Add(s, input, store, opts, out), inputs, input, store, first);
    }
  }

  // A whole table.

  function Built(s: State, inputs: seq<Input>, outs: seq<Outside>, store: map<Index, Bytes>, opts: Options): State
    requires |outs| == |inputs|
  {
    if inputs == [] then s else
    var n := |inputs| - 1;
    Add(Built(s, inputs[..n], outs[..n], store, opts), inputs[n], store, opts, outs[n])
  }

  ghost predicate GoodRun(s: State, inputs: seq<Input>, outs: seq<Outside>, store: map<Index, Bytes>, opts: Options, first: nat)
    requires |outs| == |inputs|
  {
    && (forall k :: 0 <= k < |inputs| ==> OldInput(inputs[k], first))
    && (forall k :: 0 <= k < |inputs| ==> GoodOutside(Built(s, inputs[..k], outs[..k], store, opts), outs[k], first))
  }

  lemma {:induction false} BuildKeepsInv(s: State, inputs: seq<Input>, outs: seq<Outside>, store: map<Index, Bytes>, opts: Options, first: nat)
    requires Initial(s) && |outs| == |inputs| && GoodRun(s, inputs, outs, store, opts, first)
    ensures Inv(Built(s, inputs, outs, store, opts), inputs, store, first)
  {
    if inputs != [] {
      var n := |inputs| - 1;
      GoodPrefix(s, inputs, outs, store, opts, first);
      BuildKeepsInv(s, inputs[..n], outs[..n], store, opts, first);
      AddKeepsInv(Built(s, inputs[..n], outs[..n], store, opts), inputs[..n], inputs[n], store, opts, outs[n], first);
      assert inputs[..n] + [inputs[n]] == inputs;
    }
  }

  lemma GoodPrefix(s: State, inputs: seq<Input>, outs: seq<Outside>, store: map<Index, Bytes>, opts: Options, first: nat)
    requires inputs != [] && |outs| == |inputs| && GoodRun(s, inputs, outs, store, opts, first)
    ensures var n := |inputs| - 1; GoodRun(s, inputs[..n], outs[..n], store, opts, first)
  {
    var n := |inputs| - 1;
    forall k | 0 <= k < n ensures GoodOutside(Built(s, inputs[..n][..k], outs[..n][..k], store, opts), outs[k], first) {
      assert inputs[..n][..k] == inputs[..k] && outs[..n][..k] == outs[..k];
    }
  }

  // Finishing.

  /** Records of the blob files that were completed and registered. */
  function Visible(s: State): map<Index, Bytes> {
    map i | i in s.records && i.file in s.finished :: s.records[i]
  }

  ghost predicate AllKept(inputs: seq<Input>, base: seq<Entry>, before: map<Index, Bytes>, after: map<Index, Bytes>) {
    |base| == |inputs| && forall j :: 0 <= j < |base| ==> Keeps(inputs[j], base[j], before, after)
  }

  /** If nothing had failed, all records end up in completed files. */
  lemma FinishedAll(s: State, out: Outside, registered: bool, first: nat)
    requires Files(s.open, s.records, s.finished, first) && Ok(Finish(s, out, registered)) && (Ok(s) || s.open.None?)
    ensures Visible(Finish(s, out, registered)) == s.records
  {
  }

  /** If something had failed while a blob file was open, that file is not completed, whatever Finish reports. */
  lemma FinishedWithoutOpen(s: State, out: Outside, registered: bool)
    requires !Ok(s) && s.open.Some? && Ok(Finish(s, out, registered))
    ensures s.open.value.ok && Finish(s, out, registered).finished == s.finished
    ensures Finish(s, out, registered).base == s.base && Finish(s, out, registered).records == s.records
  {
  }

  lemma LostRecord(s: State, inputs: seq<Input>, store: map<Index, Bytes>, first: nat, out: Outside, registered: bool)
    requires Inv(s, inputs, store, first) && OldStore(store, first)
    requires !Ok(s) && s.open.Some? && Ok(Finish(s, out, registered))
    ensures !AllKept(inputs, s.base, store, store + Visible(Finish(s, out, registered)))
  {
    FinishedWithoutOpen(s, out, registered);
    var i :| i in s.records && i.file == s.open.value.file && Referenced(s.base, i);
    var j :| 0 <= j < |s.base| && PointsTo(s.base[j], i);
    var visible := Visible(Finish(s, out, registered));
    assert i !in store + visible;
    assert Keeps(inputs[j], s.base[j], store, store + s.records);
  }

  /**
   * When Finish reports success, the table stands for its inputs exactly if nothing had failed
   * before it, or nothing was dropped and no blob file was left open.
   */
  lemma FinishPreservesIff(s: State, inputs: seq<Input>, store: map<Index, Bytes>, first: nat, out: Outside, registered: bool)
    requires Inv(s, inputs, store, first) && OldStore(store, first) && Ok(Finish(s, out, registered))
    ensures var f := Finish(s, out, registered);
      AllKept(inputs, f.base, store, store + Visible(f)) <==> Ok(s) || (s.open.None? && |s.base| == |inputs|)
  {
    var f := Finish(s, out, registered);
    assert f.base == s.base;
    if Ok(s) || s.open.None? {
      FinishedAll(s, out, registered, first);
    } else {
      LostRecord(s, inputs, store, first, out, registered);
    }
  }

  /** Every record written to a completed blob file is referenced by exactly one entry. */
  lemma RecordsReferencedOnce(s: State, inputs: seq<Input>, store: map<Index, Bytes>, first: nat, out: Outside, registered: bool, i: Index)
    requires Inv(s, inputs, store, first) && Ok(s) && Ok(Finish(s, out, registered)) && i in Finish(s, out, registered).records
    ensures i in Visible(Finish(s, out, registered))
    ensures exists j :: 0 <= j < |s.base| && PointsTo(s.base[j], i) && forall k :: 0 <= k < |s.base| && PointsTo(s.base[k], i) ==> k == j
  {
    FinishedAll(s, out, registered, first);
    assert Referenced(s.base, i);
    var j :| 0 <= j < |s.base| && PointsTo(s.base[j], i);
    forall k | 0 <= k < |s.base| && PointsTo(s.base[k], i) ensures k == j {
      if k < j {} else if j < k {}
    }
  }

  /** Main result, from the first Add to Finish. */
  lemma TableKeepsMeaning(s: State, inputs: seq<Input>, outs: seq<Outside>, store: map<Index, Bytes>, opts: Options,
                          first: nat, out: Outside, registered: bool)
    requires Initial(s) && |outs| == |inputs| && GoodRun(s, inputs, outs, store, opts, first) && OldStore(store, first)
    requires Ok(Built(s, inputs, outs, store, opts)) && Ok(Finish(Built(s, inputs, outs, store, opts), out, registered))
    ensures var f := Finish(Built(s, inputs, outs, store, opts), out, registered);
      && AllKept(inputs, f.base, store, store + Visible(f))
      && Visible(f) == f.records
  {
    BuildKeepsInv(s, inputs, outs, store, opts, first);
    var b := Built(s, inputs, outs, store, opts);
    FinishPreservesIff(b, inputs, store, first, out, registered);
    FinishedAll(b, out, registered, first);
  }

  /** Finish can report success for a table that lost its only entry. */
  lemma SuccessHidesLoss(s: State, key: InternalKey, value: Bytes, opts: Options, out: Outside)
    requires Initial(s) && key.kind.Value? && opts.runMode.Normal? && |value| >= opts.minBlobSize
    requires out.newFile.None? && out.baseOk
    ensures var f := Finish(Add(s, Input(Some(key), Raw(value)), map[], opts, out), out, true);
      Ok(f) && f.base == []
  {
  }
}
