/**
 * Discardable-byte accounting of sorted blob files with level merge on: what tables reference,
 * what the flush and compaction callbacks charge, and when a file is deleted.
 */
module Accounting {
  import opened BlobFormat
  import opened Coding
  import SizeProperty
  import Order

  /** A table entry: a value stored inline, or a reference to a record of a blob file. */
  datatype Entry = Inline | Ref(file: nat, size: nat)

  type Table = seq<Entry>

  datatype Account = Account(size: nat, discardable: int, obsolete: bool)

  function Get(m: map<nat, int>, f: nat): int {
    if f in m then m[f] else 0
  }

  /** The bytes of records in every blob file. */
  function Payload(a: Account): int {
    a.size - HEADER_SIZE - FOOTER_SIZE
  }

  predicate NoLiveData(a: Account) {
    a.discardable == Payload(a)
  }

  // What tables reference.

  function Bytes(e: Entry, f: nat): nat {
    if e.Ref? && e.file == f then e.size else 0
  }

  function TableBytes(t: Table, f: nat): nat {
    if t == [] then 0 else TableBytes(t[..|t| - 1], f) + Bytes(t[|t| - 1], f)
  }

  function AllBytes(ts: seq<Table>, f: nat): nat {
    if ts == [] then 0 else AllBytes(ts[..|ts| - 1], f) + TableBytes(ts[|ts| - 1], f)
  }

  ghost predicate Mentions(t: Table, f: nat) {
    exists i :: 0 <= i < |t| && t[i].Ref? && t[i].file == f
  }

  ghost predicate MentionedIn(ts: seq<Table>, f: nat) {
    exists i :: 0 <= i < |ts| && Mentions(ts[i], f)
  }

  /** A table's property lists exactly the blob files its entries reference, with the bytes referenced. */
  ghost predicate Describes(property: map<nat, int>, t: Table) {
    && (forall f :: Get(property, f) == TableBytes(t, f))
    && (forall f :: f in property <==> Mentions(t, f))
  }

  lemma MentionsMore(t: Table, e: Entry, f: nat)
    ensures Mentions(t + [e], f) <==> Mentions(t, f) || (e.Ref? && e.file == f)
  {
    var more := t + [e];
    assert more[|t|] == e;
    if Mentions(t, f) {
      var i :| 0 <= i < |t| && t[i].Ref? && t[i].file == f;
      assert more[i] == t[i];
    }
  }

  lemma DescribesMore(property: map<nat, int>, t: Table, e: Entry)
    requires Describes(property, t)
    ensures Describes(if e.Ref? then property[e.file := Get(property, e.file) + e.size] else property, t + [e])
  {
    assert (t + [e])[..|t|] == t;
    forall f ensures TableBytes(t + [e], f) == TableBytes(t, f) + Bytes(e, f) {}
    forall f ensures Mentions(t + [e], f) <==> Mentions(t, f) || (e.Ref? && e.file == f) { MentionsMore(t, e, f); }
  }

  /** The table property collector: bytes referenced per blob file. */
  class BlobFileSizeCollector {
    var sizes: map<nat, nat>
    ghost var entries: Table

    ghost predicate Valid()
      reads this
    {
      Describes(sizes, entries)
    }

    constructor ()
      ensures Valid() && entries == []
    {
      sizes, entries := map[], [];
    }

    method AddUserKey(e: Entry)
      requires Valid()
      modifies this
      ensures Valid() && entries == old(entries) + [e]
    {
      DescribesMore(sizes, entries, e);
      entries := entries + [e];
      if e.Ref? {
        if e.file in sizes {
          sizes := sizes[e.file := sizes[e.file] + e.size];
        } else {
          sizes := sizes[e.file := e.size];
        }
      }
    }

    /** The property written with the table reads back as a description of its entries; a table without references has none. */
    method Finish() returns (p: Option<Order.Bytes>)
      requires Valid() && |sizes| < U32 && forall f :: f in sizes ==> f < U64 && sizes[f] < U64
      ensures p.None? <==> forall f :: !Mentions(entries, f)
      ensures p.Some? ==> SizeProperty.DecodedSizes(p.value).Some? && Describes(SizeProperty.DecodedSizes(p.value).value, entries)
    {
      if sizes == map[] { return None; }
      assert exists f :: f in sizes;
      var es := SizeProperty.ListSizes(sizes);
      SizeProperty.SizesRoundTrip(es, sizes);
      var bytes := SizeProperty.Encode(es);
      return Some(bytes);
    }
  }

  ghost predicate DescribeAll(properties: seq<map<nat, int>>, ts: seq<Table>) {
    |properties| == |ts| && forall i :: 0 <= i < |ts| ==> Describes(properties[i], ts[i])
  }

  // The compaction callback.

  /** Adds one table's property, times a coefficient, to the difference map. */
  method AddProperty(start: map<nat, int>, property: map<nat, int>, coefficient: int) returns (diff: map<nat, int>)
    ensures forall f :: Get(diff, f) == Get(start, f) + coefficient * Get(property, f)
  {
    diff := start;
    var todo := property.Keys;
    while todo != {}
      invariant todo <= property.Keys
      invariant forall f :: Get(diff, f) == Get(start, f) + if f in todo then 0 else coefficient * Get(property, f)
      decreases todo
    {
      var f :| f in todo;
      todo := todo - {f};
      if f in diff {
        diff := diff[f := diff[f] + coefficient * property[f]];
      } else {
        diff := diff[f := coefficient * property[f]];
      }
    }
  }

  /** Also gathers the files that the tables mention, except the ones in `known`. */
  method CalcBfs(start: map<nat, int>, properties: seq<map<nat, int>>, coefficient: int, known: set<nat>, ghost ts: seq<Table>)
    returns (diff: map<nat, int>, touched: set<nat>)
    requires DescribeAll(properties, ts)
    ensures forall f :: Get(diff, f) == Get(start, f) + coefficient * AllBytes(ts, f)
    ensures forall f :: f in touched <==> f !in known && MentionedIn(ts, f)
  {
    diff, touched := start, {};
    for i := 0 to |properties|
      invariant forall f :: Get(diff, f) == Get(start, f) + coefficient * AllBytes(ts[..i], f)
      invariant forall f :: f in touched <==> f !in known && MentionedIn(ts[..i], f)
    {
      var next := AddProperty(diff, properties[i], coefficient);
      assert ts[..i + 1] == ts[..i] + [ts[i]] && ts[..i + 1][..i] == ts[..i];
      forall f ensures Get(next, f) == Get(start, f) + coefficient * AllBytes(ts[..i + 1], f) {
        Distribute(coefficient, AllBytes(ts[..i], f), TableBytes(ts[i], f));
      }
      forall f ensures MentionedIn(ts[..i + 1], f) <==> MentionedIn(ts[..i], f) || Mentions(ts[i], f) {
        MentionedMore(ts[..i], ts[i], f);
      }
      diff, touched := next, touched + (properties[i].Keys - known);
    }
    assert ts[..|ts|] == ts;
  }

  lemma MentionedMore(ts: seq<Table>, t: Table, f: nat)
    ensures MentionedIn(ts + [t], f) <==> MentionedIn(ts, f) || Mentions(t, f)
  {
    var more := ts + [t];
    assert more[|ts|] == t;
    if MentionedIn(ts, f) {
      var i :| 0 <= i < |ts| && Mentions(ts[i], f);
      assert more[i] == ts[i];
    }
  }

  lemma Distribute(c: int, a: int, b: int)
    ensures c * (a + b) == c * a + c * b
  {
  }

  function Charged(a: Account, d: int): Account {
    if d >= 0 then a else a.(discardable := a.discardable - d)
  }

  function Deletions(files: map<nat, Account>, diff: map<nat, int>): set<nat> {
    set f | f in files && Get(diff, f) < 0 && NoLiveData(Charged(files[f], Get(diff, f)))
  }

  /** The column family that an edit is for unless it says otherwise. */
  const DEFAULT_CF: nat := 0

  /**
   * The delete edit carries no column family id, so the default column family judges it. It is refused
   * as a whole if it names a file of another one, or an obsolete file.
   */
  predicate EditAccepted(cf: nat, files: map<nat, Account>, deletions: set<nat>) {
    deletions == {} || (cf == DEFAULT_CF && forall f :: f in deletions && f in files ==> !files[f].obsolete)
  }

  function AfterCharges(cf: nat, files: map<nat, Account>, diff: map<nat, int>): map<nat, Account> {
    var gone := Deletions(files, diff);
    map f | f in files ::
      var a := Charged(files[f], Get(diff, f));
      if f in gone && EditAccepted(cf, files, gone) then a.(obsolete := true) else a
  }

  /** The callback gives up, charging nothing, if it does not know a file that the outputs mention for the first time. */
  function AfterCompaction(cf: nat, files: map<nat, Account>, diff: map<nat, int>, novel: set<nat>): map<nat, Account> {
    if novel <= files.Keys then AfterCharges(cf, files, diff) else files
  }

  /** A file becomes obsolete in this way exactly if the compaction is one of the default column family, leaves it without live data and names no obsolete file. */
  lemma ObsoletedIff(cf: nat, files: map<nat, Account>, diff: map<nat, int>, novel: set<nat>, f: nat)
    requires f in files && !files[f].obsolete && novel <= files.Keys
    ensures AfterCompaction(cf, files, diff, novel)[f].obsolete <==>
      cf == DEFAULT_CF && f in Deletions(files, diff) && forall g :: g in Deletions(files, diff) ==> !files[g].obsolete
  {
  }

  method ChargeFiles(files: map<nat, Account>, diff: map<nat, int>) returns (r: map<nat, Account>, gone: set<nat>)
    ensures r == map f | f in files :: Charged(files[f], Get(diff, f))
    ensures gone == Deletions(files, diff)
  {
    r, gone := files, {};
    var todo := diff.Keys;
    while todo != {}
      invariant todo <= diff.Keys
      invariant r == map f | f in files :: if f in todo then files[f] else Charged(files[f], Get(diff, f))
      invariant gone == set f | f in Deletions(files, diff) && f !in todo
      decreases todo
    {
      var f :| f in todo;
      todo := todo - {f};
      if diff[f] < 0 && f in r {
        r := r[f := Charged(r[f], diff[f])];
        if NoLiveData(r[f]) { gone := gone + {f}; }
      }
    }
  }

  /** What a compaction charges a file whose referenced bytes went from `before` to `after`. */
  function Dropped(before: nat, after: nat): nat {
    if after < before then before - after else 0
  }

  method OnCompactionCompleted(cf: nat, files: map<nat, Account>, inputs: seq<map<nat, int>>, outputs: seq<map<nat, int>>,
                               ghost ins: seq<Table>, ghost outs: seq<Table>)
    returns (r: map<nat, Account>, ghost diff: map<nat, int>, ghost novel: set<nat>)
    requires DescribeAll(inputs, ins) && DescribeAll(outputs, outs)
    ensures forall f :: Get(diff, f) == AllBytes(outs, f) - AllBytes(ins, f)
    ensures forall f :: f in novel <==> MentionedIn(outs, f) && !MentionedIn(ins, f)
    ensures r == AfterCompaction(cf, files, diff, novel)
    ensures cf != DEFAULT_CF ==> r.Keys == files.Keys && forall f :: f in files ==> r[f].obsolete == files[f].obsolete
    ensures (forall f :: MentionedIn(outs, f) && !MentionedIn(ins, f) ==> f in files) ==>
      r.Keys == files.Keys && forall f :: f in files ==>
        r[f].discardable == files[f].discardable + Dropped(AllBytes(ins, f), AllBytes(outs, f))
  {
    var d, before, after;
    d, before := CalcBfs(map[], inputs, -1, {}, ins);
    d, after := CalcBfs(d, outputs, 1, before, outs);
    diff, novel := d, after;
    if !(after <= files.Keys) { return files, diff, novel; }
    r := ChargeAndDelete(cf, files, d);
    ChargesDropped(cf, files, d, ins, outs);
  }

  method ChargeAndDelete(cf: nat, files: map<nat, Account>, diff: map<nat, int>) returns (r: map<nat, Account>)
    ensures r == AfterCharges(cf, files, diff)
  {
    var charged, gone := ChargeFiles(files, diff);
    if EditAccepted(cf, files, gone) {
      r := map f | f in charged :: if f in gone then charged[f].(obsolete := true) else charged[f];
    } else {
      r := charged;
    }
  }

  lemma ChargesDropped(cf: nat, files: map<nat, Account>, diff: map<nat, int>, ins: seq<Table>, outs: seq<Table>)
    requires forall f :: Get(diff, f) == AllBytes(outs, f) - AllBytes(ins, f)
    ensures AfterCharges(cf, files, diff).Keys == files.Keys
    ensures forall f :: f in files ==>
      AfterCharges(cf, files, diff)[f].discardable == files[f].discardable + Dropped(AllBytes(ins, f), AllBytes(outs, f))
  {
  }

  // The flush callback.

  /** 64-bit arithmetic. */
  function Wrapped(n: int): nat {
    n % U64
  }

  /** A first flush charges what its table does not reference; a later one gives back what it does. */
  function Flushed(a: Account, referenced: int): Account {
    a.(discardable := Wrapped((if a.discardable == 0 then Payload(a) else a.discardable) - referenced))
  }

  function AfterFlush(files: map<nat, Account>, property: map<nat, int>): map<nat, Account> {
    map f | f in files :: if f in property then Flushed(files[f], property[f]) else files[f]
  }

  function FlushedAll(a: Account, referenced: seq<nat>): Account {
    if referenced == [] then a
    else Flushed(FlushedAll(a, referenced[..|referenced| - 1]), referenced[|referenced| - 1])
  }

  function Sum(s: seq<nat>): nat {
    if s == [] then 0 else Sum(s[..|s| - 1]) + s[|s| - 1]
  }

  /** However many flushes a blob file's records take to reach the tables, what is not referenced yet counts as discardable. */
  lemma {:induction false} FlushesCount(a: Account, referenced: seq<nat>)
    requires a.discardable == 0 && Payload(a) < U64
    requires referenced != [] && Sum(referenced) <= Payload(a) && forall i :: 0 <= i < |referenced| ==> referenced[i] > 0
    ensures FlushedAll(a, referenced) == a.(discardable := Payload(a) - Sum(referenced))
    decreases |referenced|
  {
    var n := |referenced| - 1;
    if n > 0 { FlushesCount(a, referenced[..n]); }
  }

  lemma WrappedSum(a: int, b: int)
    ensures Wrapped(a + Wrapped(b)) == Wrapped(a + b)
  {
    var q := b / U64;
    assert b == q * U64 + b % U64;
    WrappedShift(a + b % U64, q);
  }

  lemma WrappedShift(n: int, q: int)
    ensures Wrapped(n + q * U64) == Wrapped(n)
    decreases if q < 0 then -q else q
  {
    if q > 0 { WrappedShift(n, q - 1); assert n + q * U64 == n + (q - 1) * U64 + U64; }
    if q < 0 { WrappedShift(n, q + 1); assert n + q * U64 == n + (q + 1) * U64 - U64; }
  }

  method OnFlushCompleted(files: map<nat, Account>, property: map<nat, int>) returns (r: map<nat, Account>)
    ensures r == AfterFlush(files, property)
  {
    r := files;
    var todo := property.Keys;
    while todo != {}
      invariant todo <= property.Keys
      invariant r == map f | f in files :: if f in todo then files[f] else AfterFlush(files, property)[f]
      decreases todo
    {
      var f :| f in todo;
      todo := todo - {f};
      if f in r {
        var charge := if r[f].discardable == 0 then r[f].size - property[f] - HEADER_SIZE - FOOTER_SIZE else -property[f];
        WrappedSum(r[f].discardable, charge);
        r := r[f := r[f].(discardable := Wrapped(r[f].discardable + Wrapped(charge)))];
      }
    }
  }
}
