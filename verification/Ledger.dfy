/**
 * Accounts under abstract steps: what a flush or compaction must have written for the books to
 * balance. That tables built by the table builder always have is shown in AccountingRuns.
 */
module Ledger {
  import opened Accounting
  import opened BlobFormat
  import opened Coding

  /**
   * `base` and `whole` only describe history: `base[f]` is the amount that discardable and
   * referenced bytes of `f` add up to, and `whole` the files written since the last restart.
   */
  datatype State = State(tables: seq<Table>, files: map<nat, Account>, base: map<nat, int>, whole: set<nat>)

  /** `created` gives the sizes of the blob files a flush or compaction wrote. */
  datatype Step =
    | Flush(table: Table, created: map<nat, nat>, property: map<nat, int>)
    | Compact(picked: seq<bool>, outputs: seq<Table>, created: map<nat, nat>, diff: map<nat, int>, novel: set<nat>)
    | Purge(file: nat)
    | Restart

  function Select(ts: seq<Table>, picked: seq<bool>, which: bool): seq<Table>
    requires |ts| == |picked|
  {
    if ts == [] then [] else
    var n := |ts| - 1;
    Select(ts[..n], picked[..n], which) + if picked[n] == which then [ts[n]] else []
  }

  function FileSize(records: nat): nat {
    HEADER_SIZE + records + FOOTER_SIZE
  }

  /** New files have new numbers and hold exactly the records the new tables reference. */
  ghost predicate Wrote(st: State, created: map<nat, nat>, ts: seq<Table>) {
    && (forall f :: f in created ==> f !in st.files && AllBytes(st.tables, f) == 0)
    && (forall f :: f in created ==> AllBytes(ts, f) > 0 && created[f] == FileSize(AllBytes(ts, f)))
  }

  /** A flush references only files it wrote; a compaction keeps or drops references to other files, never adds any. */
  ghost predicate Enabled(st: State, step: Step) {
    match step
    case Flush(table, created, property) =>
      && Wrote(st, created, [table])
      && (forall f :: f !in created ==> TableBytes(table, f) == 0)
      && Describes(property, table) && property.Keys <= created.Keys
    case Compact(picked, outputs, created, diff, novel) =>
      && |picked| == |st.tables|
      && Wrote(st, created, outputs)
      && (forall f :: f !in created ==> AllBytes(outputs, f) <= AllBytes(Select(st.tables, picked, true), f))
      && (forall f :: Get(diff, f) == AllBytes(outputs, f) - AllBytes(Select(st.tables, picked, true), f))
      && novel <= created.Keys
    case Purge(f) => f in st.files && st.files[f].obsolete
    case Restart => true
  }

  function Opened(created: map<nat, nat>): map<nat, Account> {
    map f | f in created :: Account(created[f], 0, false)
  }

  /** The bytes of records in a file of a given size. */
  function RecordBytes(size: nat): nat {
    if size < HEADER_SIZE + FOOTER_SIZE then 0 else size - HEADER_SIZE - FOOTER_SIZE
  }

  function Payloads(created: map<nat, nat>): map<nat, int> {
    map f | f in created :: RecordBytes(created[f])
  }

  function Reopened(files: map<nat, Account>): map<nat, Account> {
    map f | f in files && !files[f].obsolete :: files[f].(discardable := 0)
  }

  ghost function Next(st: State, step: Step): State
    requires step.Compact? ==> |step.picked| == |st.tables|
  {
    match step
    case Flush(table, created, property) =>
      State(st.tables + [table], AfterFlush(st.files + Opened(created), property), st.base + Payloads(created), st.whole + created.Keys)
    case Compact(picked, outputs, created, diff, novel) =>
      State(Select(st.tables, picked, false) + outputs, AfterCompaction(DEFAULT_CF, st.files + Opened(created), diff, novel),
            st.base + Payloads(created), st.whole + created.Keys)
    case Purge(f) => State(st.tables, st.files - {f}, st.base - {f}, st.whole - {f})
    case Restart =>
      State(st.tables, Reopened(st.files), map f | f in Reopened(st.files) :: AllBytes(st.tables, f), {})
  }

  // Invariant.

  /** `total` is the number of bytes the current tables reference in the file. */
  ghost predicate Balanced(a: Account, base: int, whole: bool, total: int) {
    && 0 <= a.discardable
    && base <= Payload(a)
    && (whole ==> base == Payload(a))
    && (if a.obsolete then total == 0 else a.discardable + total == base)
  }

  ghost predicate Accounted(st: State) {
    && st.files.Keys == st.base.Keys
    && st.whole <= st.files.Keys
    && (forall f :: f in st.files ==> Balanced(st.files[f], st.base[f], f in st.whole, AllBytes(st.tables, f)))
  }

  /** Every referenced file is known. */
  ghost predicate Grounded(st: State) {
    forall f :: AllBytes(st.tables, f) > 0 ==> f in st.files
  }

  ghost predicate Inv(st: State) {
    Accounted(st) && Grounded(st)
  }

  ghost predicate Initial(st: State) {
    st.tables == [] && st.files == map[] && st.base == map[] && st.whole == {}
  }

  lemma InitialInv(st: State)
    requires Initial(st)
    ensures Inv(st)
  {
  }

  // Sums.

  lemma {:induction false} BytesSplit(ts: seq<Table>, picked: seq<bool>, f: nat)
    requires |ts| == |picked|
    ensures AllBytes(ts, f) == AllBytes(Select(ts, picked, true), f) + AllBytes(Select(ts, picked, false), f)
  {
    if ts != [] {
      var n := |ts| - 1;
      BytesSplit(ts[..n], picked[..n], f);
      var a, b := Select(ts[..n], picked[..n], true), Select(ts[..n], picked[..n], false);
      BytesMore(a, ts[n], f);
      BytesMore(b, ts[n], f);
      assert a + [] == a && b + [] == b;
    }
  }

  lemma BytesMore(ts: seq<Table>, t: Table, f: nat)
    ensures AllBytes(ts + [t], f) == AllBytes(ts, f) + TableBytes(t, f)
  {
    assert (ts + [t])[..|ts|] == ts;
  }

  lemma {:induction false} BytesConcat(a: seq<Table>, b: seq<Table>, f: nat)
    ensures AllBytes(a + b, f) == AllBytes(a, f) + AllBytes(b, f)
  {
    if b == [] {
      assert a + b == a;
    } else {
      var n := |b| - 1;
      assert a + b == (a + b[..n]) + [b[n]];
      BytesMore(a + b[..n], b[n], f);
      BytesConcat(a, b[..n], f);
    }
  }

  // Flush.

  lemma FlushBytes(st: State, step: Step, f: nat)
    requires step.Flush? && Enabled(st, step)
    ensures AllBytes(Next(st, step).tables, f) == AllBytes(st.tables, f) + TableBytes(step.table, f)
    ensures f in step.created ==> TableBytes(step.table, f) == step.created[f] - HEADER_SIZE - FOOTER_SIZE > 0
  {
    BytesMore(st.tables, step.table, f);
    BytesMore([], step.table, f);
    assert [] + [step.table] == [step.table];
  }

  lemma FlushedFile(files: map<nat, Account>, property: map<nat, int>, f: nat)
    ensures f in AfterFlush(files, property) <==> f in files
    ensures f in files && f !in property ==> AfterFlush(files, property)[f] == files[f]
    ensures f in files && f in property && files[f].discardable == 0 && property[f] == Payload(files[f]) ==>
      AfterFlush(files, property)[f] == files[f]
  {
  }

  /** A flush opens its files with nothing discardable and touches no other account. */
  lemma FlushFile(st: State, step: Step, f: nat)
    requires step.Flush? && Enabled(st, step)
    ensures var t := Next(st, step);
      && (f in t.files <==> f in st.files || f in step.created)
      && (f in step.created ==> t.files[f] == Account(step.created[f], 0, false))
      && (f in st.files && f !in step.created ==> t.files[f] == st.files[f])
  {
    FlushBytes(st, step, f);
    FlushedFile(st.files + Opened(step.created), step.property, f);
    assert Get(step.property, f) == TableBytes(step.table, f);
  }

  lemma FlushKeepsInv(st: State, step: Step)
    requires Inv(st) && step.Flush? && Enabled(st, step)
    ensures Inv(Next(st, step))
  {
    var t := Next(st, step);
    forall f
      ensures f in t.files <==> f in st.files || f in step.created
      ensures f in t.files ==> Balanced(t.files[f], t.base[f], f in t.whole, AllBytes(t.tables, f))
      ensures AllBytes(t.tables, f) > 0 ==> f in t.files
    {
      FlushBytes(st, step, f);
      FlushFile(st, step, f);
    }
  }

  // Compaction.

  lemma CompactTotals(tables: seq<Table>, picked: seq<bool>, outputs: seq<Table>, f: nat)
    requires |picked| == |tables|
    ensures AllBytes(Select(tables, picked, false) + outputs, f) ==
      AllBytes(tables, f) - AllBytes(Select(tables, picked, true), f) + AllBytes(outputs, f)
    ensures AllBytes(Select(tables, picked, true), f) <= AllBytes(tables, f)
  {
    BytesSplit(tables, picked, f);
    BytesConcat(Select(tables, picked, false), outputs, f);
  }

  /** What a compaction means for one file, in bytes: those of the tables it read, wrote and left. */
  ghost predicate Compacted(st: State, step: Step, f: nat, read: int, written: int, after: int)
    requires step.Compact?
  {
    && after == AllBytes(st.tables, f) - read + written && 0 <= read <= AllBytes(st.tables, f)
    && Get(step.diff, f) == written - read
    && (f !in step.created ==> written <= read)
    && (f in step.created ==> AllBytes(st.tables, f) == 0 && written > 0 && step.created[f] == FileSize(written))
  }

  lemma CompactedOne(st: State, step: Step, f: nat)
    requires step.Compact? && Enabled(st, step)
    ensures Compacted(st, step, f, AllBytes(Select(st.tables, step.picked, true), f), AllBytes(step.outputs, f), AllBytes(Next(st, step).tables, f))
  {
    CompactTotals(st.tables, step.picked, step.outputs, f);
  }

  lemma CompactBytes(st: State, step: Step, f: nat)
    requires step.Compact? && Enabled(st, step)
    ensures AllBytes(Next(st, step).tables, f) == AllBytes(st.tables, f) + Get(step.diff, f)
    ensures f !in step.created ==> 0 <= AllBytes(st.tables, f) + Get(step.diff, f) && Get(step.diff, f) <= 0
    ensures f in step.created ==> AllBytes(st.tables, f) == 0 && Get(step.diff, f) == step.created[f] - HEADER_SIZE - FOOTER_SIZE > 0
  {
    CompactedOne(st, step, f);
    CompactedMeans(st, step, f, AllBytes(Select(st.tables, step.picked, true), f), AllBytes(step.outputs, f), AllBytes(Next(st, step).tables, f));
  }

  lemma CompactedMeans(st: State, step: Step, f: nat, read: int, written: int, after: int)
    requires step.Compact? && Compacted(st, step, f, read, written, after) && written >= 0
    ensures after == AllBytes(st.tables, f) + Get(step.diff, f)
    ensures f !in step.created ==> 0 <= AllBytes(st.tables, f) + Get(step.diff, f) && Get(step.diff, f) <= 0
    ensures f in step.created ==> AllBytes(st.tables, f) == 0 && Get(step.diff, f) == step.created[f] - HEADER_SIZE - FOOTER_SIZE > 0
  {}

  /** An obsolete file is referenced by no table, so no compaction charges it and no delete edit names it twice. */
  lemma DeletesAccepted(st: State, step: Step)
    requires Accounted(st) && step.Compact? && Enabled(st, step)
    ensures EditAccepted(DEFAULT_CF, st.files + Opened(step.created), Deletions(st.files + Opened(step.created), step.diff))
  {
    var files := st.files + Opened(step.created);
    forall f | f in Deletions(files, step.diff) ensures !files[f].obsolete {
      CompactBytes(st, step, f);
    }
  }

  /** The account of a file after it lost `-d` referenced bytes. */
  function AfterLoss(a: Account, d: int): Account {
    var c := Charged(a, d);
    if d < 0 && NoLiveData(c) then c.(obsolete := true) else c
  }

  lemma CompactFile(st: State, step: Step, f: nat)
    requires Accounted(st) && step.Compact? && Enabled(st, step)
    ensures var t := Next(st, step);
      && (f in t.files <==> f in st.files || f in step.created)
      && (f in step.created ==> t.files[f] == Account(step.created[f], 0, false))
      && (f in st.files && f !in step.created ==> t.files[f] == AfterLoss(st.files[f], Get(step.diff, f)))
  {
    CompactBytes(st, step, f);
    DeletesAccepted(st, step);
  }

  lemma LossBalances(a: Account, base: int, whole: bool, total: nat, d: int)
    requires Balanced(a, base, whole, total) && d <= 0 <= total + d
    ensures Balanced(AfterLoss(a, d), base, whole, total + d)
  {
  }

  lemma OpenedBalances(size: nat, total: nat)
    requires size == HEADER_SIZE + total + FOOTER_SIZE
    ensures Balanced(Account(size, 0, false), size - HEADER_SIZE - FOOTER_SIZE, true, total)
  {
  }

  lemma CompactAccount(st: State, step: Step, f: nat)
    requires Accounted(st) && step.Compact? && Enabled(st, step)
    requires f in Next(st, step).files
    ensures var t := Next(st, step);
      && f in t.base && Balanced(t.files[f], t.base[f], f in t.whole, AllBytes(t.tables, f))
  {
    CompactBytes(st, step, f);
    CompactFile(st, step, f);
    if f in step.created {
      OpenedBalances(step.created[f], Get(step.diff, f));
    } else {
      LossBalances(st.files[f], st.base[f], f in st.whole, AllBytes(st.tables, f), Get(step.diff, f));
    }
  }

  lemma CompactGrounded(st: State, step: Step)
    requires Inv(st) && step.Compact? && Enabled(st, step)
    ensures Grounded(Next(st, step))
  {
    var t := Next(st, step);
    forall f | AllBytes(t.tables, f) > 0 ensures f in t.files {
      CompactBytes(st, step, f);
      CompactFile(st, step, f);
    }
  }

  lemma CompactAccounted(st: State, step: Step)
    requires Accounted(st) && step.Compact? && Enabled(st, step)
    ensures Accounted(Next(st, step))
  {
    var t := Next(st, step);
    forall f ensures f in t.files <==> f in st.files || f in step.created { CompactFile(st, step, f); }
    forall f | f in t.files ensures Balanced(t.files[f], t.base[f], f in t.whole, AllBytes(t.tables, f)) {
      CompactAccount(st, step, f);
    }
  }

  lemma CompactKeepsInv(st: State, step: Step)
    requires Inv(st) && step.Compact? && Enabled(st, step)
    ensures Inv(Next(st, step))
  {
    CompactAccounted(st, step);
    CompactGrounded(st, step);
  }

  lemma StepKeepsInv(st: State, step: Step)
    requires Inv(st) && Enabled(st, step)
    ensures Inv(Next(st, step))
  {
    match step
    case Flush(_, _, _) => FlushKeepsInv(st, step);
    case Compact(_, _, _, _, _) => CompactKeepsInv(st, step);
    case Purge(_) =>
    case Restart =>
  }

  /** A compaction deletes a file exactly when it drops its last reference and no restart forgot earlier garbage. */
  lemma DeletedIff(st: State, step: Step, f: nat)
    requires Inv(st) && step.Compact? && Enabled(st, step)
    requires f in st.files && !st.files[f].obsolete && Get(step.diff, f) < 0
    ensures f in Next(st, step).files
    ensures Next(st, step).files[f].obsolete <==> AllBytes(Next(st, step).tables, f) == 0 && st.base[f] == Payload(st.files[f])
  {
    CompactBytes(st, step, f);
    CompactFile(st, step, f);
  }

  /** The bounds asserted around every charge. */
  lemma ChargesInBounds(st: State, step: Step, f: nat)
    requires Inv(st) && step.Compact? && Enabled(st, step)
    requires f in st.files && Get(step.diff, f) < 0
    ensures -Get(step.diff, f) < st.files[f].size
    ensures 0 <= st.files[f].discardable - Get(step.diff, f) < st.files[f].size
  {
    CompactBytes(st, step, f);
  }

  // A restart resets discardable sizes, and what it forgets is never made up.

  ghost predicate Stuck(st: State, f: nat) {
    f in st.files && f in st.base && !st.files[f].obsolete && st.base[f] < Payload(st.files[f])
  }

  lemma RestartSticks(st: State, f: nat)
    requires Inv(st) && f in st.files && !st.files[f].obsolete
    ensures Stuck(Next(st, Restart), f) <==> st.files[f].discardable > 0 || st.base[f] < Payload(st.files[f])
  {
  }

  lemma StepKeepsStuck(st: State, step: Step, f: nat)
    requires Inv(st) && Enabled(st, step) && Stuck(st, f)
    ensures Stuck(Next(st, step), f)
  {
    match step
    case Flush(_, _, _) => FlushFile(st, step, f);
    case Compact(_, _, _, _, _) => CompactStuck(st, step, f);
    case Purge(_) =>
    case Restart =>
  }

  lemma CompactStuck(st: State, step: Step, f: nat)
    requires Inv(st) && step.Compact? && Enabled(st, step) && Stuck(st, f)
    ensures Stuck(Next(st, step), f)
  {
    CompactBytes(st, step, f);
    CompactFile(st, step, f);
  }
}
