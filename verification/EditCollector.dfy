/** Collecting manifest edits in batch: what one collector accepts and what it does to the storages. */
module Collecting {
  import opened Coding
  import opened VersionEdits

  datatype Status = Ok | Corruption | Incomplete | NotFound

  /** One column family's blob files: the metadata table and which of its files are obsolete. */
  datatype Storage = Storage(files: map<nat, Meta>, obsolete: set<nat>)

  datatype CfEdits = CfEdits(added: map<nat, Meta>, deleted: map<nat, nat>)

  const NO_CF_EDITS := CfEdits(map[], map[])

  datatype Collector = Collector(status: Status, done: bool, next: Option<nat>, cfs: map<nat, CfEdits>)

  const NEW_COLLECTOR := Collector(Ok, false, None, map[])

  // Filling a table that refuses a second entry for a key.

  datatype Item<T> = Item(key: nat, val: T)

  datatype Filled<T> = Filled(table: map<nat, T>, complete: bool)

  function Fill<T>(table: map<nat, T>, items: seq<Item<T>>): Filled<T> {
    if items == [] then Filled(table, true) else
    var before, item := Fill(table, items[..|items| - 1]), items[|items| - 1];
    if !before.complete || item.key in before.table then before.(complete := false)
    else Filled(before.table[item.key := item.val], true)
  }

  ghost predicate AllNew<T>(table: map<nat, T>, items: seq<Item<T>>) {
    && (forall i :: 0 <= i < |items| ==> items[i].key !in table)
    && (forall i, j :: 0 <= i < j < |items| ==> items[i].key != items[j].key)
  }

  ghost predicate Keyed<T>(items: seq<Item<T>>, k: nat) {
    exists i :: 0 <= i < |items| && items[i].key == k
  }

  /** `r` is `table` with every item entered. */
  ghost predicate Entered<T>(table: map<nat, T>, items: seq<Item<T>>, r: map<nat, T>) {
    && (forall k :: k in r <==> k in table || Keyed(items, k))
    && (forall k :: k in table ==> k in r && r[k] == table[k])
    && (forall i :: 0 <= i < |items| ==> items[i].key in r && r[items[i].key] == items[i].val)
  }

  lemma {:induction false} FillCompleteIff<T>(table: map<nat, T>, items: seq<Item<T>>)
    ensures Fill(table, items).complete <==> AllNew(table, items)
    ensures Fill(table, items).complete ==> Entered(table, items, Fill(table, items).table)
  {
    if items != [] {
      var n := |items| - 1;
      var before := items[..n];
      FillCompleteIff(table, before);
      assert items == before + [items[n]];
      assert Keyed(before, items[n].key) ==> !AllNew(table, items);
      assert AllNew(table, items) ==> AllNew(table, before);
      if AllNew(table, before) && items[n].key !in Fill(table, before).table {
        FillOneMore(table, before, items[n], Fill(table, before).table);
      }
    }
  }

  lemma FillOneMore<T>(table: map<nat, T>, before: seq<Item<T>>, item: Item<T>, t: map<nat, T>)
    requires AllNew(table, before) && Entered(table, before, t) && item.key !in t
    ensures AllNew(table, before + [item]) && Entered(table, before + [item], t[item.key := item.val])
  {
    var items := before + [item];
    assert items[|before|] == item;
    forall i | 0 <= i < |before| ensures items[i] == before[i] && items[i].key != item.key {}
    forall k ensures k in t[item.key := item.val] <==> k in table || Keyed(items, k) {
      if Keyed(before, k) {
        var i :| 0 <= i < |before| && before[i].key == k;
        assert items[i].key == k;
      }
      if Keyed(items, k) && k != item.key {
        var i :| 0 <= i < |items| && items[i].key == k;
        assert before[i].key == k;
      }
    }
  }

  function MetaItems(files: seq<Meta>): seq<Item<Meta>> {
    seq(|files|, i requires 0 <= i < |files| => Item(files[i].number, files[i]))
  }

  function DeletionItems(files: seq<Deletion>): seq<Item<nat>> {
    seq(|files|, i requires 0 <= i < |files| => Item(files[i].number, files[i].obsoleteSeq))
  }

  // What a batch of edits does to one storage.

  ghost predicate Sealable(c: CfEdits, st: Storage) {
    && (forall n :: n in c.added ==> n !in st.files)
    && (forall n :: n in c.deleted && n !in c.added ==> n in st.files && n !in st.obsolete)
  }

  /** Files added and not deleted again. */
  function Kept(c: CfEdits): map<nat, Meta> {
    map n | n in c.added && n !in c.deleted :: c.added[n]
  }

  function Applied(c: CfEdits, st: Storage): Storage {
    Storage(Kept(c) + st.files, st.obsolete + (c.deleted.Keys - c.added.Keys))
  }

  ghost predicate SealableAll(cfs: map<nat, CfEdits>, storages: map<nat, Storage>) {
    forall cf :: cf in cfs && cf in storages ==> Sealable(cfs[cf], storages[cf])
  }

  function AppliedAll(cfs: map<nat, CfEdits>, storages: map<nat, Storage>): map<nat, Storage> {
    map cf | cf in storages :: if cf in cfs then Applied(cfs[cf], storages[cf]) else storages[cf]
  }

  // Adding an edit to a collector.

  datatype Outcome = Outcome(collector: Collector, status: Status)

  function EditsOf(v: Collector, cf: nat): CfEdits {
    if cf in v.cfs then v.cfs[cf] else NO_CF_EDITS
  }

  function WithNext(v: Collector, next: Option<nat>): Outcome {
    if next.None? then Outcome(v, Ok)
    else if next.value < (if v.next.Some? then v.next.value else 0) then Outcome(v.(status := Corruption), Corruption)
    else Outcome(v.(next := next), Ok)
  }

  function WithDeleted(v: Collector, e: Edit): Outcome {
    var c := EditsOf(v, e.cf);
    var deleted := Fill(c.deleted, DeletionItems(e.deleted));
    var v' := v.(cfs := v.cfs[e.cf := c.(deleted := deleted.table)]);
    if !deleted.complete then Outcome(v'.(status := Corruption), Corruption)
    else WithNext(if e.deleted == [] then v' else v'.(status := Ok), e.next)
  }

  function WithAdded(v: Collector, e: Edit): Outcome {
    var c := EditsOf(v, e.cf);
    var added := Fill(c.added, MetaItems(e.added));
    var v' := v.(cfs := v.cfs[e.cf := c.(added := added.table)]);
    if !added.complete then Outcome(v'.(status := Corruption), Corruption)
    else Outcome(if e.added == [] then v' else v'.(status := Ok), Ok)
  }

  function WithEdit(v: Collector, e: Edit): Outcome {
    if v.done then Outcome(v, Incomplete) else
    var o := WithAdded(v, e);
    if !o.status.Ok? then o else WithDeleted(o.collector, e)
  }

  // The collector object.

  class EditCollector {
    var status: Status
    var done: bool
    var hasNext: bool
    var next: nat
    var cfs: map<nat, CfEdits>

    function View(): Collector
      reads this
    {
      Collector(status, done, if hasNext then Some(next) else None, cfs)
    }

    ghost predicate Valid()
      reads this
    {
      !hasNext ==> next == 0
    }

    constructor ()
      ensures Valid() && View() == NEW_COLLECTOR
    {
      status, done, hasNext, next, cfs := Ok, false, false, 0, map[];
    }

    method AddFiles(cf: nat, files: seq<Meta>) returns (ok: bool)
      requires cf in cfs
      modifies `cfs, `status
      ensures var r := Fill(old(cfs[cf]).added, MetaItems(files));
        && ok == r.complete
        && cfs == old(cfs)[cf := old(cfs[cf]).(added := r.table)]
        && status == if !ok then Corruption else if files == [] then old(status) else Ok
    {
      var c := cfs[cf];
      ghost var items := MetaItems(files);
      for i := 0 to |files|
        invariant cf in cfs && Fill(c.added, items[..i]) == Filled(cfs[cf].added, true)
        invariant cfs == old(cfs)[cf := c.(added := cfs[cf].added)]
        invariant status == if i == 0 then old(status) else Ok
      {
        assert items[..i + 1][..i] == items[..i];
        if files[i].number in cfs[cf].added {
          FillStops(c.added, items, i + 1);
          status := Corruption;
          return false;
        }
        cfs := cfs[cf := cfs[cf].(added := cfs[cf].added[files[i].number := files[i]])];
        status := Ok;
      }
      assert items[..|files|] == items;
      return true;
    }

    method DeleteFiles(cf: nat, files: seq<Deletion>) returns (ok: bool)
      requires cf in cfs
      modifies `cfs, `status
      ensures var r := Fill(old(cfs[cf]).deleted, DeletionItems(files));
        && ok == r.complete
        && cfs == old(cfs)[cf := old(cfs[cf]).(deleted := r.table)]
        && status == if !ok then Corruption else if files == [] then old(status) else Ok
    {
      var c := cfs[cf];
      ghost var items := DeletionItems(files);
      for i := 0 to |files|
        invariant cf in cfs && Fill(c.deleted, items[..i]) == Filled(cfs[cf].deleted, true)
        invariant cfs == old(cfs)[cf := c.(deleted := cfs[cf].deleted)]
        invariant status == if i == 0 then old(status) else Ok
      {
        assert items[..i + 1][..i] == items[..i];
        if files[i].number in cfs[cf].deleted {
          FillStops(c.deleted, items, i + 1);
          status := Corruption;
          return false;
        }
        cfs := cfs[cf := cfs[cf].(deleted := cfs[cf].deleted[files[i].number := files[i].obsoleteSeq])];
        status := Ok;
      }
      assert items[..|files|] == items;
      return true;
    }

    method SetNext(newNext: Option<nat>) returns (s: Status)
      requires Valid()
      modifies `next, `hasNext, `status
      ensures Valid() && Outcome(View(), s) == WithNext(old(View()), newNext)
    {
      if newNext.Some? {
        if newNext.value < next {
          status := Corruption;
          return status;
        }
        next, hasNext := newNext.value, true;
      }
      return Ok;
    }

    method AddDeleted(e: Edit) returns (s: Status)
      requires Valid() && e.cf in cfs
      modifies this
      ensures Valid() && Outcome(View(), s) == WithDeleted(old(View()), e)
    {
      var ok := DeleteFiles(e.cf, e.deleted);
      if !ok { return status; }
      s := SetNext(e.next);
    }

    method AddAdded(e: Edit) returns (s: Status)
      requires Valid()
      modifies this
      ensures Valid() && e.cf in cfs && Outcome(View(), s) == WithAdded(old(View()), e)
    {
      if e.cf !in cfs { cfs := cfs[e.cf := NO_CF_EDITS]; }
      assert cfs == old(cfs)[e.cf := EditsOf(old(View()), e.cf)];
      var ok := AddFiles(e.cf, e.added);
      s := if ok then Ok else status;
    }

    method AddEdit(e: Edit) returns (s: Status)
      requires Valid()
      modifies this
      ensures Valid() && Outcome(View(), s) == WithEdit(old(View()), e)
    {
      if done { return Incomplete; }
      s := AddAdded(e);
      if !s.Ok? { return; }
      s := AddDeleted(e);
    }

    /** Checks the batch against the open storages; edits for column families that are not open are skipped. */
    method Seal(storages: map<nat, Storage>) returns (s: Status)
      modifies `status, `done
      ensures s == if !old(status).Ok? then old(status) else if SealableAll(cfs, storages) then Ok else Corruption
      ensures status == s
      ensures done == (s.Ok? || old(done))
    {
      if !status.Ok? { return status; }
      var todo := cfs.Keys;
      while todo != {}
        invariant status.Ok? && todo <= cfs.Keys && done == old(done)
        invariant forall cf :: cf in cfs && cf !in todo && cf in storages ==> Sealable(cfs[cf], storages[cf])
        decreases todo
      {
        var cf :| cf in todo;
        todo := todo - {cf};
        if cf in storages {
          var ok := SealCf(cfs[cf], storages[cf]);
          if !ok {
            status := Corruption;
            return status;
          }
        }
      }
      done := true;
      return Ok;
    }

    /** Applies a sealed batch to the storages it was sealed against. */
    method Apply(storages: map<nat, Storage>) returns (s: Status, r: map<nat, Storage>)
      requires status.Ok? && done ==> SealableAll(cfs, storages)
      ensures s == if !status.Ok? then status else if !done then Incomplete else Ok
      ensures r == if s.Ok? then AppliedAll(cfs, storages) else storages
    {
      r := storages;
      if !status.Ok? { return status, r; }
      if !done { return Incomplete, r; }
      var todo := cfs.Keys;
      while todo != {}
        invariant todo <= cfs.Keys
        invariant r == map cf | cf in storages :: if cf in cfs && cf !in todo then Applied(cfs[cf], storages[cf]) else storages[cf]
        decreases todo
      {
        var cf :| cf in todo;
        todo := todo - {cf};
        if cf in r {
          var applied := ApplyCf(cfs[cf], r[cf]);
          r := r[cf := applied];
        }
      }
      return Ok, r;
    }

    method GetNextFileNumber() returns (s: Status, n: nat)
      ensures s == if !status.Ok? then status else if hasNext then Ok else Corruption
      ensures s.Ok? ==> View().next == Some(n)
    {
      if !status.Ok? { return status, 0; }
      if hasNext { return Ok, next; }
      return Corruption, 0;
    }
  }

  method SealCf(c: CfEdits, st: Storage) returns (ok: bool)
    ensures ok <==> Sealable(c, st)
  {
    var todo := c.added.Keys;
    while todo != {}
      invariant todo <= c.added.Keys
      invariant forall n :: n in c.added && n !in todo ==> n !in st.files
      decreases todo
    {
      var n :| n in todo;
      if n in st.files { return false; }
      todo := todo - {n};
    }
    todo := c.deleted.Keys;
    while todo != {}
      invariant todo <= c.deleted.Keys
      invariant forall n :: n in c.added ==> n !in st.files
      invariant forall n :: n in c.deleted && n !in todo && n !in c.added ==> n in st.files && n !in st.obsolete
      decreases todo
    {
      var n :| n in todo;
      if n !in c.added && (n !in st.files || n in st.obsolete) { return false; }
      todo := todo - {n};
    }
    return true;
  }

  method AddKept(c: CfEdits, files: map<nat, Meta>) returns (r: map<nat, Meta>)
    requires forall n :: n in c.added ==> n !in files
    ensures r == Kept(c) + files
  {
    r := files;
    var todo := c.added.Keys;
    while todo != {}
      invariant todo <= c.added.Keys
      invariant r == (map n | n in c.added && n !in c.deleted && n !in todo :: c.added[n]) + files
      decreases todo
    {
      var n :| n in todo;
      todo := todo - {n};
      if n !in c.deleted {
        r := r[n := c.added[n]];
      }
    }
  }

  method ApplyCf(c: CfEdits, st: Storage) returns (r: Storage)
    requires Sealable(c, st)
    ensures r == Applied(c, st)
  {
    var files := AddKept(c, st.files);
    r := Storage(files, st.obsolete);
    var todo := c.deleted.Keys;
    while todo != {}
      invariant todo <= c.deleted.Keys
      invariant r == Storage(files, st.obsolete + ((c.deleted.Keys - todo) - c.added.Keys))
      decreases todo
    {
      var n :| n in todo;
      todo := todo - {n};
      if n !in c.added {
        assert n in r.files;
        r := r.(obsolete := r.obsolete + {n});
      }
    }
  }

  lemma {:induction false} FillStops<T>(table: map<nat, T>, items: seq<Item<T>>, k: nat)
    requires k <= |items| && !Fill(table, items[..k]).complete
    ensures Fill(table, items) == Fill(table, items[..k])
    decreases |items|
  {
    if k < |items| {
      var n := |items| - 1;
      assert items[..n][..k] == items[..k];
      FillStops(table, items[..n], k);
    } else {
      assert items[..k] == items;
    }
  }
}
