/** The table builder as an object that is updated call by call. */
module TableBuilder {
  import opened Order
  import opened Coding
  import opened TableBuilding
  import opened TableBuildingProof
  import opened TableSizes
  import BlobFormat

  class TitanTableBuilder {
    const opts: Options
    const store: map<Index, Bytes>
    const first: nat
    var statusOk: bool
    var baseOk: bool
    var base: seq<Entry>
    var blob: Option<Open>
    var records: map<Index, Bytes>
    var finished: seq<nat>
    var sizes: map<nat, nat>
    var encountered: map<nat, Option<Fixed>>
    var merging: set<nat>
    ghost var inputs: seq<Input>

    ghost function View(): State
      reads this
    {
      State(statusOk, baseOk, base, blob, records, finished, sizes, encountered, merging)
    }

    /**
     * Every entry stands for its input, every reference to a new blob file is to a record of its own,
     * and every blob file is as large as the references to it say.
     */
    ghost predicate Valid()
      reads this
    {
      Inv(View(), inputs, store, first) && Tallied(View(), inputs, first)
    }

    /** New blob files get numbers from `first` on. */
    constructor (opts: Options, store: map<Index, Bytes>, first: nat)
      ensures Valid() && Initial(View()) && inputs == []
      ensures this.opts == opts && this.store == store && this.first == first
    {
      this.opts, this.store, this.first := opts, store, first;
      statusOk, baseOk, base, blob, records := true, true, [], None, map[];
      finished, sizes, encountered, merging, inputs := [], map[], map[], {}, [];
      new;
      InitialTallied(View(), first);
    }

    predicate Okay()
      reads this
    {
      statusOk && baseOk && (blob.Some? ==> blob.value.ok)
    }

    method AddToBase(e: Entry, out: Outside)
      modifies `base, `baseOk
      ensures View() == BaseAdd(old(View()), e, out)
    {
      if baseOk {
        base := base + [e];
        baseOk := out.baseOk;
      }
    }

    /** Completes the open blob file, or gives it up if anything failed. */
    method CloseBlobFile(out: Outside)
      requires Files(blob, records, finished, first)
      modifies `blob, `finished, `sizes, `statusOk
      ensures View() == FinishBlobFile(old(View()), out)
      ensures Files(blob, records, finished, first)
      ensures old(Okay()) ==> (out.finishOk || old(blob).None? <==> blob.None?)
      ensures blob.Some? ==> finished == old(finished) && sizes == old(sizes)
      ensures old(blob).Some? && blob.None? ==>
        old(Okay()) && finished == old(finished) + [old(blob).value.file]
        && sizes == old(sizes)[old(blob).value.file := old(blob).value.offset + BlobFormat.FOOTER_SIZE]
    {
      FinishEffect(View(), out, first);
      EndBlobFile(out);
    }

    method EndBlobFile(out: Outside)
      modifies `blob, `finished, `sizes, `statusOk
      ensures View() == FinishBlobFile(old(View()), out)
    {
      if blob.Some? {
        var o := blob.value;
        blob := Some(o.(ok := o.ok && out.finishOk));
        if Okay() {
          finished := finished + [o.file];
          sizes := sizes[o.file := o.offset + BlobFormat.FOOTER_SIZE];
          blob := None;
        } else {
          statusOk := out.deleteOk;
        }
      }
    }

    /** With an index, the value lies at a place of its own in a new file; without one, the builder has failed. */
    method AddBlob(value: Bytes, out: Outside) returns (index: Option<Index>)
      requires Okay() && Files(blob, records, finished, first) && GoodOutside(View(), out, first)
      modifies `blob, `records, `finished, `sizes, `statusOk
      ensures Added(View(), index) == TableBuilding.AddBlob(old(View()), value, opts, out)
      ensures BlobEffect(old(View()), Added(View(), index), value, first)
    {
      AddBlobEffect(View(), value, opts, out, first);
      index := WriteBlob(value, out);
    }

    method WriteBlob(value: Bytes, out: Outside) returns (index: Option<Index>)
      requires Okay() && Files(blob, records, finished, first) && GoodOutside(View(), out, first)
      modifies `blob, `records, `finished, `sizes, `statusOk
      ensures Added(View(), index) == TableBuilding.AddBlob(old(View()), value, opts, out)
    {
      if blob.None? {
        if out.newFile.None? {
          statusOk := false;
          return None;
        }
        blob := Some(Open(out.newFile.value, BlobFormat.HEADER_SIZE, true));
      }
      var o := blob.value;
      var at := BlobFormat.Index(o.file, o.offset, out.recordSize);
      WriteEffect(View(), value, out, first);
      blob := Some(Open(o.file, o.offset + out.recordSize, out.appendOk));
      if !out.appendOk { return None; }
      records := records[at := value];
      if o.offset + out.recordSize >= opts.targetSize {
        CloseBlobFile(out);
      }
      return Some(at);
    }

    method AddSeparated(key: InternalKey, value: Bytes, out: Outside)
      requires Okay() && Files(blob, records, finished, first) && GoodOutside(View(), out, first)
      modifies `base, `baseOk, `blob, `records, `finished, `sizes, `statusOk
      ensures View() == TableBuilding.AddSeparated(old(View()), key, value, opts, out)
    {
      var index := AddBlob(value, out);
      if index.Some? && Okay() {
        AddToBase(Entry(key.(kind := BlobIndex), Pointer(index.value)), out);
      }
    }

    method AddFallback(key: InternalKey, payload: Payload, out: Outside)
      requires Okay()
      modifies `base, `baseOk, `statusOk
      ensures View() == TableBuilding.AddFallback(old(View()), key, payload, store, out)
    {
      if !payload.Pointer? {
        statusOk := false;
        return;
      }
      if out.readOk && payload.index in store {
        AddToBase(Entry(key.(kind := Value), Raw(store[payload.index])), out);
      } else {
        AddToBase(Entry(key, payload), out);
      }
    }

    method MergeValue(key: InternalKey, payload: Payload, out: Outside)
      requires Okay() && payload.Pointer? && Files(blob, records, finished, first) && GoodOutside(View(), out, first)
      modifies `base, `baseOk, `blob, `records, `finished, `sizes, `statusOk
      ensures View() == TableBuilding.MergeValue(old(View()), key, payload, store, opts, out)
    {
      if out.readOk && payload.index in store {
        var index := AddBlob(store[payload.index], out);
        if index.Some? && Okay() {
          AddToBase(Entry(key.(kind := BlobIndex), Pointer(index.value)), out);
          return;
        }
      }
      AddToBase(Entry(key, payload), out);
    }

    method AddMerging(key: InternalKey, payload: Payload, out: Outside)
      requires Okay() && Files(blob, records, finished, first) && GoodOutside(View(), out, first)
      modifies `base, `baseOk, `blob, `records, `finished, `sizes, `statusOk, `encountered, `merging
      ensures View() == TableBuilding.AddMerging(old(View()), key, payload, store, opts, out)
    {
      if !payload.Pointer? {
        statusOk := false;
        return;
      }
      var file := payload.index.file;
      if file !in encountered {
        encountered := encountered[file := out.found];
      }
      if !ShouldMerge(encountered[file], out.state, opts) {
        AddToBase(Entry(key, payload), out);
        return;
      }
      if file !in merging {
        if !out.prefetchOk {
          statusOk := false;
          AddToBase(Entry(key, payload), out);
          return;
        }
      }
      merging := merging + {file};
      MergeValue(key, payload, out);
    }

    /** Chooses what becomes of one entry. */
    method Dispatch(input: Input, out: Outside)
      requires Files(blob, records, finished, first) && GoodOutside(View(), out, first)
      modifies `base, `baseOk, `blob, `records, `finished, `sizes, `statusOk, `encountered, `merging
      ensures View() == TableBuilding.Add(old(View()), input, store, opts, out)
    {
      if !Okay() { return; }
      if input.key.None? {
        statusOk := false;
        return;
      }
      var key, payload := input.key.value, input.payload;
      if key.kind.BlobIndex? && opts.runMode.Fallback? {
        AddFallback(key, payload, out);
      } else if key.kind.Value? && payload.Raw? && |payload.value| >= opts.minBlobSize && opts.runMode.Normal? {
        AddSeparated(key, payload.value, out);
      } else if key.kind.BlobIndex? && Merges(opts) {
        AddMerging(key, payload, out);
      } else {
        AddToBase(Entry(key, payload), out);
      }
    }

    /** The input is recorded, and while nothing has failed the table has one faithful entry for each input. */
    method Add(input: Input, out: Outside)
      requires Valid() && OldInput(input, first) && GoodOutside(View(), out, first)
      modifies this
      ensures Valid() && inputs == old(inputs) + [input]
      ensures View() == TableBuilding.Add(old(View()), input, store, opts, out)
      ensures Okay() ==> old(Okay()) && |base| == |inputs| && forall j :: 0 <= j < |base| ==> Keeps(inputs[j], base[j], store, store + records)
    {
      AddKeepsInv(View(), inputs, input, store, opts, out, first);
      InvPlaces(View(), inputs, store, first);
      AddTallied(View(), inputs, input, store, opts, out, first);
      StaysFailed(View(), input, store, opts, out);
      Dispatch(input, out);
      inputs := inputs + [input];
    }

    /**
     * A reported success means the table stands for its inputs exactly if nothing had failed before,
     * or nothing was dropped and no blob file was open; and then the registered blob files are as
     * large as the references to them say.
     */
    method Finish(out: Outside, registered: bool) returns (ok: bool)
      requires Valid() && OldStore(store, first)
      modifies `baseOk, `blob, `finished, `sizes, `statusOk
      ensures View() == TableBuilding.Finish(old(View()), out, registered) && ok == Okay()
      ensures ok ==> (AllKept(inputs, base, store, store + Visible(View())) <==> old(Okay()) || (old(blob).None? && |base| == |inputs|))
      ensures ok && (old(Okay()) || old(blob).None?) ==> Exact(View(), inputs, first)
    {
      ghost var before := View();
      baseOk := baseOk && out.baseOk;
      CloseBlobFile(out);
      statusOk := registered;
      ok := Okay();
      if ok {
        FinishPreservesIff(before, inputs, store, first, out, registered);
        InvPlaces(before, inputs, store, first);
        if Clean(before) { FinishExact(before, inputs, out, first); }
      }
    }
  }

  /** Once something has failed, nothing is added any more. */
  lemma StaysFailed(s: State, input: Input, store: map<Index, Bytes>, opts: Options, out: Outside)
    ensures !Ok(s) ==> Add(s, input, store, opts, out) == s
  {
  }
}
