/** How the sizes of new blob files relate to the references in the table built with them. */
module TableSizes {
  import opened Order
  import opened Coding
  import opened TableBuilding
  import opened TableBuildingProof
  import opened BlobFormat
  import A = Accounting

  /** What the size collector sees of an entry. */
  function RefOf(e: Entry): A.Entry {
    if e.key.kind.BlobIndex? && e.payload.Pointer? then A.Ref(e.payload.index.file, e.payload.index.size) else A.Inline
  }

  function TableOf(base: seq<Entry>): A.Table {
    seq(|base|, i requires 0 <= i < |base| => RefOf(base[i]))
  }

  function InputRef(input: Input): A.Entry {
    if input.key.Some? then RefOf(Entry(input.key.value, input.payload)) else A.Inline
  }

  function InputTable(inputs: seq<Input>): A.Table {
    seq(|inputs|, i requires 0 <= i < |inputs| => InputRef(inputs[i]))
  }

  function BytesIn(base: seq<Entry>, f: nat): nat {
    A.TableBytes(TableOf(base), f)
  }

  lemma BytesInMore(base: seq<Entry>, e: Entry, f: nat)
    ensures BytesIn(base + [e], f) == BytesIn(base, f) + A.Bytes(RefOf(e), f)
  {
    var t := TableOf(base + [e]);
    assert t[..|base|] == TableOf(base) && t[|base|] == RefOf(e);
  }

  lemma {:induction false} NoBytes(t: A.Table, f: nat)
    requires forall i :: 0 <= i < |t| ==> A.Bytes(t[i], f) == 0
    ensures A.TableBytes(t, f) == 0
  {
    if t != [] { NoBytes(t[..|t| - 1], f); }
  }

  /** Every complete file, and the open one while it is fine, holds exactly the bytes the table references in it. */
  ghost predicate Sized(s: State, first: nat) {
    && (forall f :: f in s.sizes <==> f in s.finished)
    && (forall f :: f in s.sizes ==> f >= first && BytesIn(s.base, f) > 0)
    && (forall f :: f in s.sizes ==> s.sizes[f] == HEADER_SIZE + BytesIn(s.base, f) + FOOTER_SIZE)
    && (s.open.Some? && s.open.value.ok ==>
          s.open.value.offset == HEADER_SIZE + BytesIn(s.base, s.open.value.file) && BytesIn(s.base, s.open.value.file) > 0)
  }

  /** A reference to an older file stands where its input had it. */
  ghost predicate OldRefsKept(inputs: seq<Input>, base: seq<Entry>, first: nat) {
    |base| <= |inputs| && forall j :: 0 <= j < |base| && RefOf(base[j]).Ref? && RefOf(base[j]).file < first ==>
      RefOf(base[j]) == InputRef(inputs[j])
  }

  lemma UnreferencedFile(s: State, first: nat, f: nat)
    requires Files(s.open, s.records, s.finished, first) && Refs(s.base, s.records, first)
    requires f >= first && f !in s.finished && s.open.None?
    ensures BytesIn(s.base, f) == 0
  {
    NoBytes(TableOf(s.base), f);
  }

  // Writing a record.

  /** Where the new record lies, and what the call does to the open file and the sizes. */
  lemma AddBlobPlaces(s: State, value: Bytes, opts: Options, out: Outside)
    requires Ok(s)
    ensures var r := AddBlob(s, value, opts, out);
      && (r.index.None? ==> r.state.sizes == s.sizes && r.state.finished == s.finished)
      && (r.index.Some? ==>
            && r.index.value.size == out.recordSize
            && (if s.open.Some? then r.index.value.file == s.open.value.file && r.index.value.offset == s.open.value.offset
                else out.newFile == Some(r.index.value.file) && r.index.value.offset == HEADER_SIZE))
      && (r.index.Some? && r.state.open.Some? ==>
            && r.state.sizes == s.sizes && r.state.finished == s.finished && r.state.open.value.file == r.index.value.file
            && r.state.open.value.offset == r.index.value.offset + r.index.value.size)
      && (r.index.Some? && r.state.open.None? ==>
            && r.state.finished == s.finished + [r.index.value.file]
            && r.state.sizes == s.sizes[r.index.value.file := r.index.value.offset + r.index.value.size + FOOTER_SIZE])
  {
  }

  // One Add, by what it does.

  lemma OldEntrySized(s: State, t: State, e: Entry, first: nat)
    requires Sized(s, first) && Files(s.open, s.records, s.finished, first)
    requires t.base == s.base + [e] && t.sizes == s.sizes && t.finished == s.finished && t.open == s.open
    requires RefOf(e).Ref? ==> RefOf(e).file < first
    ensures Sized(t, first)
  {
    forall f | f >= first ensures BytesIn(t.base, f) == BytesIn(s.base, f) { BytesInMore(s.base, e, f); }
  }

  lemma NewEntrySized(s: State, t: State, e: Entry, i: Index, first: nat)
    requires Sized(s, first) && RefOf(e) == A.Ref(i.file, i.size) && i.size > 0 && i.file >= first && i.file !in s.finished
    requires t.base == s.base + [e] && i.offset == HEADER_SIZE + BytesIn(s.base, i.file)
    requires t.open.Some? ==>
      && t.sizes == s.sizes && t.finished == s.finished
      && t.open.value.file == i.file && t.open.value.offset == i.offset + i.size
    requires t.open.None? ==> t.finished == s.finished + [i.file] && t.sizes == s.sizes[i.file := i.offset + i.size + FOOTER_SIZE]
    ensures Sized(t, first)
  {
    forall f ensures BytesIn(t.base, f) == BytesIn(s.base, f) + if f == i.file then i.size else 0 { BytesInMore(s.base, e, f); }
  }

  /** The call failed: no file was completed and the open one, if any, is lost. */
  lemma FailedSized(s: State, t: State, e: Entry, first: nat)
    requires Sized(s, first) && t.sizes == s.sizes && t.finished == s.finished && (t.open.Some? ==> !t.open.value.ok)
    requires t.base == s.base || (t.base == s.base + [e] && (RefOf(e).Ref? ==> RefOf(e).file < first))
    ensures Sized(t, first)
  {
    forall f | f >= first ensures BytesIn(t.base, f) == BytesIn(s.base, f) { BytesInMore(s.base, e, f); }
  }

  lemma WrittenSized(s: State, value: Bytes, opts: Options, out: Outside, first: nat, t: State, e: Entry)
    requires Ok(s) && Sized(s, first) && GoodOutside(s, out, first)
    requires Files(s.open, s.records, s.finished, first) && Refs(s.base, s.records, first)
    requires var r := AddBlob(s, value, opts, out);
      && r.index.Some? && Ok(r.state) && RefOf(e) == A.Ref(r.index.value.file, r.index.value.size)
      && t.base == s.base + [e] && t.open == r.state.open && t.sizes == r.state.sizes && t.finished == r.state.finished
    ensures Sized(t, first)
  {
    AddBlobPlaces(s, value, opts, out);
    var i := AddBlob(s, value, opts, out).index.value;
    if s.open.None? { UnreferencedFile(s, first, i.file); }
    NewEntrySized(s, t, e, i, first);
  }

  lemma LostSized(s: State, value: Bytes, opts: Options, out: Outside, first: nat, t: State, e: Entry)
    requires Ok(s) && Sized(s, first) && GoodOutside(s, out, first) && Files(s.open, s.records, s.finished, first)
    requires var r := AddBlob(s, value, opts, out);
      && !(r.index.Some? && Ok(r.state))
      && t.open == r.state.open && t.sizes == r.state.sizes && t.finished == r.state.finished
    requires t.base == s.base || (t.base == s.base + [e] && (RefOf(e).Ref? ==> RefOf(e).file < first))
    ensures Sized(t, first)
  {
    AddBlobPlaces(s, value, opts, out);
    AddBlobEffect(s, value, opts, out, first);
    FailedSized(s, t, e, first);
  }

  // The branches of Add.

  ghost predicate Tallied(s: State, inputs: seq<Input>, first: nat) {
    Sized(s, first) && OldRefsKept(inputs, s.base, first)
  }

  /** What the builder's own invariant gives here. */
  ghost predicate Placed(s: State, inputs: seq<Input>, first: nat) {
    && Files(s.open, s.records, s.finished, first) && Refs(s.base, s.records, first)
    && (Ok(s) ==> |s.base| == |inputs|)
  }

  lemma OldRefsMore(inputs: seq<Input>, input: Input, base: seq<Entry>, e: Entry, first: nat)
    requires OldRefsKept(inputs, base, first) && |base| == |inputs|
    requires RefOf(e).Ref? && RefOf(e).file < first ==> RefOf(e) == InputRef(input)
    ensures OldRefsKept(inputs + [input], base + [e], first)
  {
  }

  lemma OldRefsDropped(inputs: seq<Input>, input: Input, base: seq<Entry>, first: nat)
    requires OldRefsKept(inputs, base, first)
    ensures OldRefsKept(inputs + [input], base, first)
  {
  }

  lemma SameSized(s: State, t: State, first: nat)
    requires Sized(s, first) && t.base == s.base && t.sizes == s.sizes && t.finished == s.finished && t.open == s.open
    ensures Sized(t, first)
  {
  }

  lemma OldEntryTallied(s: State, t: State, inputs: seq<Input>, input: Input, e: Entry, first: nat)
    requires Tallied(s, inputs, first) && Placed(s, inputs, first) && Ok(s)
    requires t.base == s.base + [e] && t.sizes == s.sizes && t.finished == s.finished && t.open == s.open
    requires RefOf(e).Ref? ==> RefOf(e).file < first && RefOf(e) == InputRef(input)
    ensures Tallied(t, inputs + [input], first)
  {
    OldEntrySized(s, t, e, first);
    OldRefsMore(inputs, input, s.base, e, first);
  }

  lemma UnchangedTallied(s: State, t: State, inputs: seq<Input>, input: Input, first: nat)
    requires Tallied(s, inputs, first)
    requires t.base == s.base && t.sizes == s.sizes && t.finished == s.finished && t.open == s.open
    ensures Tallied(t, inputs + [input], first)
  {
    SameSized(s, t, first);
    OldRefsDropped(inputs, input, s.base, first);
  }

  lemma FallbackTallied(s: State, inputs: seq<Input>, input: Input, store: map<Index, Bytes>, out: Outside, first: nat)
    requires Tallied(s, inputs, first) && Placed(s, inputs, first) && Ok(s) && OldInput(input, first) && input.key.Some?
    ensures Tallied(AddFallback(s, input.key.value, input.payload, store, out), inputs + [input], first)
  {
    var key := input.key.value;
    var t := AddFallback(s, key, input.payload, store, out);
    if !input.payload.Pointer? {
      UnchangedTallied(s, t, inputs, input, first);
    } else {
      OldEntryTallied(s, t, inputs, input, t.base[|s.base|], first);
    }
  }

  lemma SeparatedTallied(s: State, inputs: seq<Input>, input: Input, v: Bytes, opts: Options, out: Outside, first: nat)
    requires Tallied(s, inputs, first) && Placed(s, inputs, first) && Ok(s) && GoodOutside(s, out, first) && input.key.Some?
    ensures Tallied(AddSeparated(s, input.key.value, v, opts, out), inputs + [input], first)
  {
    var t := AddSeparated(s, input.key.value, v, opts, out);
    var r := AddBlob(s, v, opts, out);
    AddBlobEffect(s, v, opts, out, first);
    if r.index.Some? && Ok(r.state) {
      var e := Entry(input.key.value.(kind := BlobIndex), Pointer(r.index.value));
      WrittenSized(s, v, opts, out, first, t, e);
      OldRefsMore(inputs, input, s.base, e, first);
    } else {
      LostSized(s, v, opts, out, first, t, Entry(input.key.value, Garbled));
      OldRefsDropped(inputs, input, s.base, first);
    }
  }

  lemma MovedTallied(s: State, inputs: seq<Input>, input: Input, v: Bytes, opts: Options, out: Outside, first: nat, t: State)
    requires Tallied(s, inputs, first) && Placed(s, inputs, first) && Ok(s) && GoodOutside(s, out, first)
    requires input.key.Some? && input.payload.Pointer? && OldInput(input, first)
    requires var r := AddBlob(s, v, opts, out);
      t == if r.index.Some? && Ok(r.state) then BaseAdd(r.state, Entry(input.key.value.(kind := BlobIndex), Pointer(r.index.value)), out)
           else BaseAdd(r.state, Entry(input.key.value, input.payload), out)
    ensures Tallied(t, inputs + [input], first)
  {
    var r, asIs := AddBlob(s, v, opts, out), Entry(input.key.value, input.payload);
    AddBlobEffect(s, v, opts, out, first);
    if r.index.Some? && Ok(r.state) {
      var e := Entry(input.key.value.(kind := BlobIndex), Pointer(r.index.value));
      WrittenSized(s, v, opts, out, first, t, e);
      OldRefsMore(inputs, input, s.base, e, first);
    } else {
      LostSized(s, v, opts, out, first, t, asIs);
      OldRefsMore(inputs, input, s.base, asIs, first);
    }
  }

  lemma MergeValueTallied(s: State, inputs: seq<Input>, input: Input, store: map<Index, Bytes>, opts: Options, out: Outside, first: nat)
    requires Tallied(s, inputs, first) && Placed(s, inputs, first) && Ok(s) && GoodOutside(s, out, first)
    requires input.key.Some? && input.payload.Pointer? && OldInput(input, first)
    ensures Tallied(MergeValue(s, input.key.value, input.payload, store, opts, out), inputs + [input], first)
  {
    var t := MergeValue(s, input.key.value, input.payload, store, opts, out);
    var read := Read(store, input.payload.index, out);
    if read.None? {
      OldEntryTallied(s, t, inputs, input, Entry(input.key.value, input.payload), first);
    } else {
      MovedTallied(s, inputs, input, read.value, opts, out, first, t);
    }
  }

  ghost predicate SameBlobs(s: State, t: State) {
    t.sizes == s.sizes && t.finished == s.finished && t.open == s.open
  }

  function Joined(s: State, file: nat, out: Outside): State {
    var met := Encounter(s, file, out);
    met.(merging := met.merging + {file})
  }

  predicate StaysAsIs(s: State, file: nat, opts: Options, out: Outside) {
    var met := Encounter(s, file, out);
    !ShouldMerge(met.encountered[file], out.state, opts) || (file !in met.merging && !out.prefetchOk)
  }

  lemma MergingOutcome(s: State, key: InternalKey, index: Index, store: map<Index, Bytes>, opts: Options, out: Outside)
    requires Ok(s)
    ensures var t := AddMerging(s, key, Pointer(index), store, opts, out);
      if StaysAsIs(s, index.file, opts, out) then t.base == s.base + [Entry(key, Pointer(index))] && SameBlobs(s, t)
      else Ok(Joined(s, index.file, out)) && t == MergeValue(Joined(s, index.file, out), key, Pointer(index), store, opts, out)
  {
  }

  lemma JoinedTallied(s: State, inputs: seq<Input>, file: nat, out: Outside, first: nat)
    requires Tallied(s, inputs, first) && Placed(s, inputs, first)
    ensures Tallied(Joined(s, file, out), inputs, first) && Placed(Joined(s, file, out), inputs, first)
  {
    SameSized(s, Joined(s, file, out), first);
  }

  lemma MergingTallied(s: State, inputs: seq<Input>, input: Input, store: map<Index, Bytes>, opts: Options, out: Outside, first: nat, t: State)
    requires Tallied(s, inputs, first) && Placed(s, inputs, first) && Ok(s) && GoodOutside(s, out, first)
    requires input.key.Some? && OldInput(input, first)
    requires t == AddMerging(s, input.key.value, input.payload, store, opts, out)
    ensures Tallied(t, inputs + [input], first)
  {
    var key, payload := input.key.value, input.payload;
    if !payload.Pointer? {
      UnchangedTallied(s, t, inputs, input, first);
    } else {
      MergingOutcome(s, key, payload.index, store, opts, out);
      if StaysAsIs(s, payload.index.file, opts, out) {
        OldEntryTallied(s, t, inputs, input, Entry(key, payload), first);
      } else {
        JoinedTallied(s, inputs, payload.index.file, out, first);
        MergeValueTallied(Joined(s, payload.index.file, out), inputs, input, store, opts, out, first);
      }
    }
  }

  lemma AddTallied(s: State, inputs: seq<Input>, input: Input, store: map<Index, Bytes>, opts: Options, out: Outside, first: nat)
    requires Tallied(s, inputs, first) && Placed(s, inputs, first) && OldInput(input, first) && GoodOutside(s, out, first)
    ensures Tallied(Add(s, input, store, opts, out), inputs + [input], first)
  {
    var t := Add(s, input, store, opts, out);
    if !Ok(s) || input.key.None? {
      UnchangedTallied(s, t, inputs, input, first);
    } else if input.key.value.kind.BlobIndex? && opts.runMode.Fallback? {
      FallbackTallied(s, inputs, input, store, out, first);
    } else if input.key.value.kind.Value? && input.payload.Raw? && |input.payload.value| >= opts.minBlobSize && opts.runMode.Normal? {
      SeparatedTallied(s, inputs, input, input.payload.value, opts, out, first);
    } else if input.key.value.kind.BlobIndex? && Merges(opts) {
      MergingTallied(s, inputs, input, store, opts, out, first, t);
    } else {
      OldEntryTallied(s, t, inputs, input, Entry(input.key.value, input.payload), first);
    }
  }

  // A whole table.

  lemma InitialTallied(s: State, first: nat)
    requires Initial(s)
    ensures Tallied(s, [], first)
  {
  }

  lemma InvPlaces(s: State, inputs: seq<Input>, store: map<Index, Bytes>, first: nat)
    requires Inv(s, inputs, store, first)
    ensures Placed(s, inputs, first)
  {
  }

  lemma {:induction false} BuildTallied(s: State, inputs: seq<Input>, outs: seq<Outside>, store: map<Index, Bytes>, opts: Options, first: nat)
    requires Initial(s) && |outs| == |inputs| && GoodRun(s, inputs, outs, store, opts, first)
    ensures Tallied(Built(s, inputs, outs, store, opts), inputs, first)
  {
    if inputs == [] {
      InitialTallied(s, first);
    } else {
      var n := |inputs| - 1;
      var before := Built(s, inputs[..n], outs[..n], store, opts);
      GoodPrefix(s, inputs, outs, store, opts, first);
      BuildTallied(s, inputs[..n], outs[..n], store, opts, first);
      BuildKeepsInv(s, inputs[..n], outs[..n], store, opts, first);
      InvPlaces(before, inputs[..n], store, first);
      AddTallied(before, inputs[..n], inputs[n], store, opts, outs[n], first);
      assert inputs[..n] + [inputs[n]] == inputs;
    }
  }

  /** What a registered table and its blob files promise to the accounts. */
  ghost predicate Exact(f: State, inputs: seq<Input>, first: nat) {
    && (forall n :: n in f.sizes ==> n >= first && BytesIn(f.base, n) > 0)
    && (forall n :: n in f.sizes ==> f.sizes[n] == HEADER_SIZE + BytesIn(f.base, n) + FOOTER_SIZE)
    && (forall j :: 0 <= j < |f.base| && RefOf(f.base[j]).Ref? && RefOf(f.base[j]).file >= first ==>
          RefOf(f.base[j]).file in f.sizes && RefOf(f.base[j]).size > 0)
    && OldRefsKept(inputs, f.base, first)
  }

  /** No blob file was left open by a failure. */
  predicate Clean(s: State) {
    Ok(s) || s.open.None?
  }

  lemma FinishExact(s: State, inputs: seq<Input>, out: Outside, first: nat)
    requires Placed(s, inputs, first) && Tallied(s, inputs, first) && Clean(s) && Ok(Finish(s, out, true))
    ensures Exact(Finish(s, out, true), inputs, first)
  {
    var f := Finish(s, out, true);
    FinishEffect(s, out, first);
    forall j | 0 <= j < |f.base| && RefOf(f.base[j]).Ref? && RefOf(f.base[j]).file >= first
      ensures RefOf(f.base[j]).file in f.sizes && RefOf(f.base[j]).size > 0
    {
      assert InFile(s.base[j].payload.index, s.open, s.finished);
    }
  }

  lemma BuiltExact(s: State, inputs: seq<Input>, outs: seq<Outside>, store: map<Index, Bytes>, opts: Options, first: nat, out: Outside)
    requires Initial(s) && |outs| == |inputs| && GoodRun(s, inputs, outs, store, opts, first)
    requires var b := Built(s, inputs, outs, store, opts); Clean(b) && Ok(Finish(b, out, true))
    ensures Exact(Finish(Built(s, inputs, outs, store, opts), out, true), inputs, first)
  {
    BuildKeepsInv(s, inputs, outs, store, opts, first);
    BuildTallied(s, inputs, outs, store, opts, first);
    InvPlaces(Built(s, inputs, outs, store, opts), inputs, store, first);
    FinishExact(Built(s, inputs, outs, store, opts), inputs, out, first);
  }

  /** The table references no more bytes of an older file than its inputs did. */
  lemma {:induction false} OldBytesBounded(inputs: seq<Input>, base: seq<Entry>, first: nat, f: nat)
    requires OldRefsKept(inputs, base, first) && f < first
    ensures BytesIn(base, f) <= A.TableBytes(InputTable(inputs), f)
    decreases |inputs|
  {
    if inputs != [] {
      var n := |inputs| - 1;
      var ins := InputTable(inputs);
      assert ins[..n] == InputTable(inputs[..n]);
      if |base| == |inputs| {
        assert base[..n] + [base[n]] == base;
        BytesInMore(base[..n], base[n], f);
        OldBytesBounded(inputs[..n], base[..n], first, f);
      } else {
        OldBytesBounded(inputs[..n], base, first, f);
      }
    }
  }
}
