/**
 * The conservation law of blob bytes over runs of flushes, compactions, purges and restarts in
 * which every table comes out of the table builder.
 */
module AccountingRuns {
  import opened Order
  import opened Coding
  import opened Accounting
  import opened Products
  import T = TableBuilding
  import P = TableBuildingProof
  import TableSizes
  import Ledger

  // Building tables.

  const NEW_BUILDER: T.State := T.State(true, true, [], None, map[], [], map[], map[], {})

  /** One use of the builder: what it is given, what the outside does at each call, and its settings. */
  datatype Build = Build(inputs: seq<T.Input>, outs: seq<T.Outside>, last: T.Outside, store: map<T.Index, Bytes>, opts: T.Options)

  function BeforeFinish(b: Build): T.State
    requires |b.outs| == |b.inputs|
  {
    P.Built(NEW_BUILDER, b.inputs, b.outs, b.store, b.opts)
  }

  function Result(b: Build): T.State
    requires |b.outs| == |b.inputs|
  {
    T.Finish(BeforeFinish(b), b.last, true)
  }

  /** Only blob index entries carry bytes that are read as an index. */
  predicate WellTyped(input: T.Input) {
    input.payload.Pointer? ==> input.key.Some? && input.key.value.kind.BlobIndex?
  }

  /** The builder reports success and left no blob file behind; new files get numbers from `next` on. */
  ghost predicate GoodBuild(b: Build, next: nat) {
    && |b.outs| == |b.inputs|
    && (forall k :: 0 <= k < |b.inputs| ==> WellTyped(b.inputs[k]))
    && (forall k :: 0 <= k < |b.inputs| ==>
          P.GoodOutside(P.Built(NEW_BUILDER, b.inputs[..k], b.outs[..k], b.store, b.opts), b.outs[k], next))
    && TableSizes.Clean(BeforeFinish(b)) && T.Ok(Result(b))
  }

  function ProductOf(b: Build): Product
    requires |b.outs| == |b.inputs|
  {
    Product(TableSizes.TableOf(Result(b).base), TableSizes.InputTable(b.inputs), Result(b).sizes)
  }

  ghost predicate OldInputs(b: Build, next: nat) {
    forall k :: 0 <= k < |b.inputs| ==> P.OldInput(b.inputs[k], next)
  }

  lemma ExactTable(f: T.State, inputs: seq<T.Input>, next: nat)
    requires TableSizes.Exact(f, inputs, next)
    ensures Exact(Product(TableSizes.TableOf(f.base), TableSizes.InputTable(inputs), f.sizes), next)
  {
    forall n: nat | n < next ensures TableSizes.BytesIn(f.base, n) <= TableBytes(TableSizes.InputTable(inputs), n) {
      TableSizes.OldBytesBounded(inputs, f.base, next, n);
    }
    var t, ins := TableSizes.TableOf(f.base), TableSizes.InputTable(inputs);
    forall i | 0 <= i < |t| && t[i].Ref? && t[i].file < next ensures t[i] in ins {
      assert t[i] == ins[i];
    }
  }

  lemma BuildIsExact(b: Build, next: nat)
    requires GoodBuild(b, next) && OldInputs(b, next)
    ensures Exact(ProductOf(b), next)
  {
    assert P.GoodRun(NEW_BUILDER, b.inputs, b.outs, b.store, b.opts, next);
    TableSizes.BuiltExact(NEW_BUILDER, b.inputs, b.outs, b.store, b.opts, next, b.last);
    ExactTable(Result(b), b.inputs, next);
  }

  // Steps.

  /** `next` is the file number counter. */
  datatype State = State(ledger: Ledger.State, next: nat)

  /** `limit` is the counter after the step. */
  datatype Step =
    | Flush(build: Build, property: map<nat, int>, limit: nat)
    | Compact(picked: seq<bool>, builds: seq<Build>, diff: map<nat, int>, novel: set<nat>, limit: nat)
    | Purge(file: nat)
    | Restart

  function ProductsOf(builds: seq<Build>): (ps: seq<Product>)
    requires forall i :: 0 <= i < |builds| ==> |builds[i].outs| == |builds[i].inputs|
    ensures |ps| == |builds| && forall i :: 0 <= i < |ps| ==> ps[i] == ProductOf(builds[i])
  {
    seq(|builds|, i requires 0 <= i < |builds| => ProductOf(builds[i]))
  }

  ghost predicate Limits(st: State, created: map<nat, nat>, limit: nat) {
    st.next <= limit && forall f :: f in created ==> f < limit
  }

  ghost predicate NoReferences(t: Table) {
    forall i :: 0 <= i < |t| ==> !t[i].Ref?
  }

  ghost predicate FlushEnabled(st: State, b: Build, property: map<nat, int>, limit: nat) {
    && GoodBuild(b, st.next)
    && NoReferences(TableSizes.InputTable(b.inputs))
    && Describes(property, ProductOf(b).table)
    && Limits(st, ProductOf(b).sizes, limit)
  }

  ghost predicate CompactEnabled(st: State, picked: seq<bool>, builds: seq<Build>, diff: map<nat, int>, novel: set<nat>, limit: nat) {
    && |picked| == |st.ledger.tables|
    && (forall i :: 0 <= i < |builds| ==> GoodBuild(builds[i], st.next))
    && var ps, ins := ProductsOf(builds), Ledger.Select(st.ledger.tables, picked, true);
    && (forall i, j, f :: 0 <= i < j < |ps| && f in ps[i].sizes ==> f !in ps[j].sizes)
    && Drawn(Flat(Inputs(ps)), Flat(ins))
    && (forall f :: Get(diff, f) == AllBytes(Tables(ps), f) - AllBytes(ins, f))
    && (forall f :: f in novel <==> MentionedIn(Tables(ps), f) && !MentionedIn(ins, f))
    && Limits(st, Created(ps), limit)
  }

  /**
   * A flush is given no blob indexes. A compaction hands its builders entries of the picked tables,
   * each at most once. What the callbacks see are the properties of the tables.
   */
  ghost predicate Enabled(st: State, step: Step) {
    match step
    case Flush(b, property, limit) => FlushEnabled(st, b, property, limit)
    case Compact(picked, builds, diff, novel, limit) => CompactEnabled(st, picked, builds, diff, novel, limit)
    case Purge(f) => f in st.ledger.files && st.ledger.files[f].obsolete
    case Restart => true
  }

  ghost function Lower(st: State, step: Step): Ledger.Step
    requires Enabled(st, step)
  {
    match step
    case Flush(b, property, _) => Ledger.Flush(ProductOf(b).table, ProductOf(b).sizes, property)
    case Compact(picked, builds, diff, novel, _) =>
      Ledger.Compact(picked, Tables(ProductsOf(builds)), Created(ProductsOf(builds)), diff, novel)
    case Purge(f) => Ledger.Purge(f)
    case Restart => Ledger.Restart
  }

  ghost function Next(st: State, step: Step): State
    requires Enabled(st, step)
  {
    State(Ledger.Next(st.ledger, Lower(st, step)), if step.Flush? || step.Compact? then step.limit else st.next)
  }

  // Invariant.

  ghost predicate RefsBelow(t: Table, next: nat) {
    forall i :: 0 <= i < |t| && t[i].Ref? ==> t[i].size > 0 && t[i].file < next
  }

  ghost predicate Numbered(st: State) {
    && (forall f :: f in st.ledger.files ==> f < st.next)
    && (forall i :: 0 <= i < |st.ledger.tables| ==> RefsBelow(st.ledger.tables[i], st.next))
  }

  ghost predicate Inv(st: State) {
    Ledger.Inv(st.ledger) && Numbered(st)
  }

  ghost predicate Initial(st: State) {
    Ledger.Initial(st.ledger)
  }

  lemma BelowBytes(t: Table, next: nat, f: nat)
    requires RefsBelow(t, next) && f >= next
    ensures TableBytes(t, f) == 0
  {
    Unmentioned(t, f);
  }

  lemma {:induction false} NoneBelow(ts: seq<Table>, next: nat, f: nat)
    requires f >= next && forall i :: 0 <= i < |ts| ==> RefsBelow(ts[i], next)
    ensures AllBytes(ts, f) == 0
  {
    if ts != [] {
      BelowBytes(ts[|ts| - 1], next, f);
      NoneBelow(ts[..|ts| - 1], next, f);
    }
  }

  // Flushes.

  lemma FlushIsExact(st: State, step: Step)
    requires step.Flush? && Enabled(st, step)
    ensures Exact(ProductOf(step.build), st.next)
  {
    var b := step.build;
    forall k | 0 <= k < |b.inputs| ensures P.OldInput(b.inputs[k], st.next) {
      assert TableSizes.InputTable(b.inputs)[k] == TableSizes.InputRef(b.inputs[k]);
    }
    BuildIsExact(b, st.next);
  }

  /** Every reference of a flushed table is to a file the flush wrote. */
  lemma FlushedRefs(p: Product, next: nat, f: nat)
    requires Exact(p, next) && NoReferences(p.inputs)
    ensures Mentions(p.table, f) ==> f in p.sizes
    ensures f !in p.sizes ==> TableBytes(p.table, f) == 0
  {
    if f !in p.sizes && !Mentions(p.table, f) { Unmentioned(p.table, f); }
  }

  lemma FlushedBelow(p: Product, next: nat, limit: nat)
    requires Exact(p, next) && NoReferences(p.inputs) && forall f :: f in p.sizes ==> f < limit
    ensures RefsBelow(p.table, limit)
  {
  }

  lemma ProductFlushes(st: State, p: Product, property: map<nat, int>)
    requires Numbered(st) && Exact(p, st.next) && NoReferences(p.inputs) && Describes(property, p.table)
    ensures Ledger.Enabled(st.ledger, Ledger.Flush(p.table, p.sizes, property))
  {
    forall f | f in p.sizes ensures f !in st.ledger.files && AllBytes(st.ledger.tables, f) == 0 {
      NoneBelow(st.ledger.tables, st.next, f);
    }
    forall f ensures AllBytes([p.table], f) == TableBytes(p.table, f) {
      assert [p.table][..0] == [];
    }
    forall f
      ensures f !in p.sizes ==> TableBytes(p.table, f) == 0
      ensures f in property ==> f in p.sizes
    {
      FlushedRefs(p, st.next, f);
    }
  }

  lemma FlushEnabledBelow(st: State, step: Step)
    requires Numbered(st) && step.Flush? && Enabled(st, step)
    ensures Ledger.Enabled(st.ledger, Lower(st, step))
  {
    FlushIsExact(st, step);
    ProductFlushes(st, ProductOf(step.build), step.property);
  }

  // Compactions.

  lemma {:induction false} SelectMember(ts: seq<Table>, picked: seq<bool>, which: bool, i: nat)
    requires |ts| == |picked| && i < |Ledger.Select(ts, picked, which)|
    ensures Ledger.Select(ts, picked, which)[i] in ts
  {
    var n := |ts| - 1;
    var before := Ledger.Select(ts[..n], picked[..n], which);
    if i < |before| {
      SelectMember(ts[..n], picked[..n], which, i);
      assert forall t :: t in ts[..n] ==> t in ts;
    }
  }

  /** A reference handed to a builder lies in a picked table, so it is to a numbered file. */
  lemma DrawnRef(st: State, picked: seq<bool>, ps: seq<Product>, i: nat, e: Entry)
    requires Numbered(st) && |picked| == |st.ledger.tables| && i < |ps| && e.Ref? && e in ps[i].inputs
    requires Drawn(Flat(Inputs(ps)), Flat(Ledger.Select(st.ledger.tables, picked, true)))
    ensures e.size > 0 && e.file < st.next && MentionedIn(Ledger.Select(st.ledger.tables, picked, true), e.file)
  {
    var ins := Ledger.Select(st.ledger.tables, picked, true);
    FlatMember(Inputs(ps), e);
    assert e in Inputs(ps)[i];
    DrawnMember(Flat(Inputs(ps)), Flat(ins), e);
    FlatMember(ins, e);
    var j :| 0 <= j < |ins| && e in ins[j];
    assert Mentions(ins[j], e.file);
    SelectMember(st.ledger.tables, picked, true, j);
    var k :| 0 <= k < |st.ledger.tables| && st.ledger.tables[k] == ins[j];
    assert RefsBelow(st.ledger.tables[k], st.next);
  }

  lemma CompactOldInputs(st: State, step: Step, i: nat)
    requires Numbered(st) && step.Compact? && Enabled(st, step) && i < |step.builds|
    ensures OldInputs(step.builds[i], st.next)
  {
    var b := step.builds[i];
    forall k | 0 <= k < |b.inputs| ensures P.OldInput(b.inputs[k], st.next) {
      if b.inputs[k].payload.Pointer? {
        var e := TableSizes.InputTable(b.inputs)[k];
        assert e in ProductsOf(step.builds)[i].inputs;
        DrawnRef(st, step.picked, ProductsOf(step.builds), i, e);
      }
    }
  }

  lemma CompactIsExact(st: State, step: Step)
    requires Numbered(st) && step.Compact? && Enabled(st, step)
    ensures AllExact(ProductsOf(step.builds), st.next)
  {
    forall i | 0 <= i < |step.builds| ensures Exact(ProductOf(step.builds[i]), st.next) {
      CompactOldInputs(st, step, i);
      BuildIsExact(step.builds[i], st.next);
    }
  }

  /** The facts about a compaction's products that the accounts rest on. */
  ghost predicate Sourced(st: State, picked: seq<bool>, ps: seq<Product>) {
    && Numbered(st) && |picked| == |st.ledger.tables| && AllExact(ps, st.next)
    && Drawn(Flat(Inputs(ps)), Flat(Ledger.Select(st.ledger.tables, picked, true)))
  }

  lemma CompactAddsNothing(st: State, picked: seq<bool>, ps: seq<Product>, f: nat)
    requires Sourced(st, picked, ps) && f !in Created(ps)
    ensures AllBytes(Tables(ps), f) <= AllBytes(Ledger.Select(st.ledger.tables, picked, true), f)
  {
    var ins := Ledger.Select(st.ledger.tables, picked, true);
    if f >= st.next {
      CreatedBytes(ps, st.next, f);
    } else {
      OldBytes(ps, st.next, f);
      FlatBytes(Inputs(ps), f);
      FlatBytes(ins, f);
      DrawnBytes(Flat(Inputs(ps)), Flat(ins), f);
    }
  }

  lemma CompactCreates(st: State, picked: seq<bool>, ps: seq<Product>)
    requires Sourced(st, picked, ps)
    ensures Ledger.Wrote(st.ledger, Created(ps), Tables(ps))
  {
    forall f | f in Created(ps)
      ensures f !in st.ledger.files && AllBytes(st.ledger.tables, f) == 0
    {
      CreatedIsNew(ps, st.next, f);
      NoneBelow(st.ledger.tables, st.next, f);
    }
    forall f | f in Created(ps)
      ensures AllBytes(Tables(ps), f) > 0 && Created(ps)[f] == Ledger.FileSize(AllBytes(Tables(ps), f))
    {
      CreatedIsNew(ps, st.next, f);
      CreatedBytes(ps, st.next, f);
    }
  }

  lemma OutputRef(st: State, picked: seq<bool>, ps: seq<Product>, i: nat, k: nat)
    requires Sourced(st, picked, ps) && i < |ps| && k < |ps[i].table| && ps[i].table[k].Ref?
    ensures ps[i].table[k].size > 0
    ensures ps[i].table[k].file in Created(ps)
      || (ps[i].table[k].file < st.next && MentionedIn(Ledger.Select(st.ledger.tables, picked, true), ps[i].table[k].file))
  {
    var e := ps[i].table[k];
    assert Exact(ps[i], st.next);
    if e.file >= st.next {
      CreatedFrom(ps, e.file);
    } else {
      DrawnRef(st, picked, ps, i, e);
    }
  }

  lemma NovelIsCreated(st: State, picked: seq<bool>, ps: seq<Product>, f: nat)
    requires Sourced(st, picked, ps) && MentionedIn(Tables(ps), f) && !MentionedIn(Ledger.Select(st.ledger.tables, picked, true), f)
    ensures f in Created(ps)
  {
    var i :| 0 <= i < |Tables(ps)| && Mentions(Tables(ps)[i], f);
    var k :| 0 <= k < |ps[i].table| && ps[i].table[k].Ref? && ps[i].table[k].file == f;
    OutputRef(st, picked, ps, i, k);
  }

  lemma CompactEnabledBelow(st: State, step: Step)
    requires Numbered(st) && step.Compact? && Enabled(st, step)
    ensures Ledger.Enabled(st.ledger, Lower(st, step))
  {
    var ps := ProductsOf(step.builds);
    CompactIsExact(st, step);
    assert Sourced(st, step.picked, ps);
    CompactCreates(st, step.picked, ps);
    forall f | f !in Created(ps) ensures AllBytes(Tables(ps), f) <= AllBytes(Ledger.Select(st.ledger.tables, step.picked, true), f) {
      CompactAddsNothing(st, step.picked, ps, f);
    }
    forall f | f in step.novel ensures f in Created(ps) { NovelIsCreated(st, step.picked, ps, f); }
  }

  // Every step.

  lemma EnabledBelow(st: State, step: Step)
    requires Numbered(st) && Enabled(st, step)
    ensures Ledger.Enabled(st.ledger, Lower(st, step))
  {
    match step
    case Flush(_, _, _) => FlushEnabledBelow(st, step);
    case Compact(_, _, _, _, _) => CompactEnabledBelow(st, step);
    case Purge(_) =>
    case Restart =>
  }

  lemma ProductFlushNumbered(st: State, p: Product, property: map<nat, int>, limit: nat)
    requires Numbered(st) && Exact(p, st.next) && NoReferences(p.inputs) && Describes(property, p.table) && Limits(st, p.sizes, limit)
    ensures Numbered(State(Ledger.Next(st.ledger, Ledger.Flush(p.table, p.sizes, property)), limit))
  {
    var low := Ledger.Flush(p.table, p.sizes, property);
    var t := Ledger.Next(st.ledger, low);
    ProductFlushes(st, p, property);
    forall f | f in t.files ensures f < limit { Ledger.FlushFile(st.ledger, low, f); }
    FlushedBelow(p, st.next, limit);
    forall i | 0 <= i < |t.tables| ensures RefsBelow(t.tables[i], limit) {
      if i < |st.ledger.tables| { assert RefsBelow(st.ledger.tables[i], st.next); }
    }
  }

  lemma FlushKeepsNumbered(st: State, step: Step)
    requires Numbered(st) && step.Flush? && Enabled(st, step)
    ensures Numbered(Next(st, step))
  {
    FlushIsExact(st, step);
    ProductFlushNumbered(st, ProductOf(step.build), step.property, step.limit);
  }

  lemma CompactedBelow(st: State, picked: seq<bool>, ps: seq<Product>, limit: nat)
    requires Sourced(st, picked, ps) && Limits(st, Created(ps), limit)
    ensures forall t :: t in Ledger.Select(st.ledger.tables, picked, false) + Tables(ps) ==> RefsBelow(t, limit)
  {
    var kept := Ledger.Select(st.ledger.tables, picked, false);
    forall i | 0 <= i < |kept| ensures RefsBelow(kept[i], limit) { SelectMember(st.ledger.tables, picked, false, i); }
    forall i | 0 <= i < |ps| ensures RefsBelow(ps[i].table, limit) { OutputBelow(st, picked, ps, i, limit); }
  }

  lemma CompactTablesNumbered(st: State, step: Step)
    requires Numbered(st) && step.Compact? && Enabled(st, step)
    ensures forall t :: t in Next(st, step).ledger.tables ==> RefsBelow(t, step.limit)
  {
    CompactIsExact(st, step);
    assert Sourced(st, step.picked, ProductsOf(step.builds));
    CompactedBelow(st, step.picked, ProductsOf(step.builds), step.limit);
  }

  lemma CompactKeepsNumbered(st: State, step: Step)
    requires Inv(st) && step.Compact? && Enabled(st, step)
    ensures Numbered(Next(st, step))
  {
    var t := Next(st, step);
    CompactEnabledBelow(st, step);
    forall f | f in t.ledger.files ensures f < t.next { Ledger.CompactFile(st.ledger, Lower(st, step), f); }
    CompactTablesNumbered(st, step);
  }

  lemma OutputBelow(st: State, picked: seq<bool>, ps: seq<Product>, i: nat, limit: nat)
    requires Sourced(st, picked, ps) && i < |ps| && Limits(st, Created(ps), limit)
    ensures RefsBelow(ps[i].table, limit)
  {
    forall k | 0 <= k < |ps[i].table| && ps[i].table[k].Ref? ensures ps[i].table[k].size > 0 && ps[i].table[k].file < limit {
      OutputRef(st, picked, ps, i, k);
    }
  }

  lemma StepKeepsInv(st: State, step: Step)
    requires Inv(st) && Enabled(st, step)
    ensures Inv(Next(st, step))
  {
    EnabledBelow(st, step);
    Ledger.StepKeepsInv(st.ledger, Lower(st, step));
    match step
    case Flush(_, _, _) => FlushKeepsNumbered(st, step);
    case Compact(_, _, _, _, _) => CompactKeepsNumbered(st, step);
    case Purge(_) =>
    case Restart =>
  }

  ghost predicate Reaches(st: State, steps: seq<Step>, t: State)
    decreases |steps|
  {
    if steps == [] then t == st
    else Enabled(st, steps[0]) && Reaches(Next(st, steps[0]), steps[1..], t)
  }

  lemma {:induction false} RunKeepsInv(st: State, steps: seq<Step>, t: State)
    requires Inv(st) && Reaches(st, steps, t)
    ensures Inv(t)
    decreases |steps|
  {
    if steps != [] {
      StepKeepsInv(st, steps[0]);
      RunKeepsInv(Next(st, steps[0]), steps[1..], t);
    }
  }

  lemma InitialRun(st: State, steps: seq<Step>, t: State)
    requires Initial(st) && Reaches(st, steps, t)
    ensures Inv(t)
  {
    Ledger.InitialInv(st.ledger);
    RunKeepsInv(st, steps, t);
  }

  /** The account of a known file after a compaction depends only on the bytes it lost. */
  lemma CompactedFile(st: State, step: Step, f: nat)
    requires Inv(st) && step.Compact? && Enabled(st, step) && f in st.ledger.files
    ensures f in Next(st, step).ledger.files
    ensures Next(st, step).ledger.files[f] == Ledger.AfterLoss(st.ledger.files[f], Get(step.diff, f))
  {
    CompactEnabledBelow(st, step);
    assert Ledger.Wrote(st.ledger, Lower(st, step).created, Lower(st, step).outputs);
    Ledger.CompactFile(st.ledger, Lower(st, step), f);
  }

  // Results.

  /** Discardable and referenced bytes never exceed a file's payload, and make it up exactly until a restart. */
  lemma BytesAreConserved(st: State, steps: seq<Step>, t: State, f: nat)
    requires Initial(st) && Reaches(st, steps, t) && f in t.ledger.files && !t.ledger.files[f].obsolete
    ensures t.ledger.files[f].discardable + AllBytes(t.ledger.tables, f) <= Payload(t.ledger.files[f])
    ensures f in t.ledger.whole ==> t.ledger.files[f].discardable + AllBytes(t.ledger.tables, f) == Payload(t.ledger.files[f])
  {
    InitialRun(st, steps, t);
  }

  /** A table never references a file that was deleted, whether or not it has been purged. */
  lemma DeletedIsUnreferenced(st: State, steps: seq<Step>, t: State, f: nat)
    requires Initial(st) && Reaches(st, steps, t) && (f in t.ledger.files ==> t.ledger.files[f].obsolete)
    ensures AllBytes(t.ledger.tables, f) == 0 && !MentionedIn(t.ledger.tables, f)
  {
    InitialRun(st, steps, t);
    if MentionedIn(t.ledger.tables, f) {
      var i :| 0 <= i < |t.ledger.tables| && Mentions(t.ledger.tables[i], f);
      assert RefsBelow(t.ledger.tables[i], t.next);
      MentionCounts(t.ledger.tables, i, f);
    }
  }

  lemma {:induction false} EntryCounts(t: Table, k: nat, f: nat)
    requires k < |t| && t[k].Ref? && t[k].file == f && t[k].size > 0
    ensures TableBytes(t, f) > 0
  {
    var n := |t| - 1;
    if k < n { EntryCounts(t[..n], k, f); }
  }

  lemma {:induction false} MentionCounts(ts: seq<Table>, i: nat, f: nat)
    requires i < |ts| && Mentions(ts[i], f) && forall k :: 0 <= k < |ts[i]| && ts[i][k].Ref? ==> ts[i][k].size > 0
    ensures AllBytes(ts, f) > 0
  {
    var n := |ts| - 1;
    if i < n {
      MentionCounts(ts[..n], i, f);
    } else {
      var k :| 0 <= k < |ts[i]| && ts[i][k].Ref? && ts[i][k].file == f;
      EntryCounts(ts[i], k, f);
    }
  }

  /** The flush callback finds every file of the flushed table fully referenced, so it charges nothing. */
  lemma FlushChargesNothing(st: State, steps: seq<Step>, t: State, step: Step, f: nat)
    requires Initial(st) && Reaches(st, steps, t) && step.Flush? && Enabled(t, step) && f in step.property
    ensures f in ProductOf(step.build).sizes
    ensures f in Next(t, step).ledger.files && Next(t, step).ledger.files[f] == Account(ProductOf(step.build).sizes[f], 0, false)
  {
    InitialRun(st, steps, t);
    FlushEnabledBelow(t, step);
    Ledger.FlushFile(t.ledger, Lower(t, step), f);
  }

  /** A compaction deletes a file exactly when it drops the last reference and no restart forgot earlier garbage. */
  lemma DeletedIff(st: State, steps: seq<Step>, t: State, step: Step, f: nat)
    requires Initial(st) && Reaches(st, steps, t) && step.Compact? && Enabled(t, step)
    requires f in t.ledger.files && !t.ledger.files[f].obsolete && Get(step.diff, f) < 0
    ensures f in Next(t, step).ledger.files && f in t.ledger.base
    ensures Next(t, step).ledger.files[f].obsolete <==>
      AllBytes(Next(t, step).ledger.tables, f) == 0 && t.ledger.base[f] == Payload(t.ledger.files[f])
  {
    InitialRun(st, steps, t);
    CompactEnabledBelow(t, step);
    Ledger.DeletedIff(t.ledger, Lower(t, step), f);
  }

  /** The bounds asserted around every charge. */
  lemma ChargesInBounds(st: State, steps: seq<Step>, t: State, step: Step, f: nat)
    requires Initial(st) && Reaches(st, steps, t) && step.Compact? && Enabled(t, step)
    requires f in t.ledger.files && Get(step.diff, f) < 0
    ensures -Get(step.diff, f) < t.ledger.files[f].size
    ensures 0 <= t.ledger.files[f].discardable - Get(step.diff, f) < t.ledger.files[f].size
  {
    InitialRun(st, steps, t);
    CompactEnabledBelow(t, step);
    Ledger.ChargesInBounds(t.ledger, Lower(t, step), f);
  }

  /** No delete edit names a file that is already obsolete. */
  lemma DeletesAccepted(st: State, steps: seq<Step>, t: State, step: Step)
    requires Initial(st) && Reaches(st, steps, t) && step.Compact? && Enabled(t, step)
    ensures var files := t.ledger.files + Ledger.Opened(Created(ProductsOf(step.builds)));
      EditAccepted(DEFAULT_CF, files, Deletions(files, step.diff))
  {
    InitialRun(st, steps, t);
    CompactEnabledBelow(t, step);
    Ledger.DeletesAccepted(t.ledger, Lower(t, step));
  }

  /** A file that lost track of garbage at a restart is never deleted again. */
  lemma {:induction false} StuckForever(st: State, steps: seq<Step>, t: State, f: nat)
    requires Inv(st) && Reaches(st, steps, t) && Ledger.Stuck(st.ledger, f)
    ensures Ledger.Stuck(t.ledger, f)
    decreases |steps|
  {
    if steps != [] {
      EnabledBelow(st, steps[0]);
      Ledger.StepKeepsStuck(st.ledger, Lower(st, steps[0]), f);
      StepKeepsInv(st, steps[0]);
      StuckForever(Next(st, steps[0]), steps[1..], t, f);
    }
  }
}
