/** Sums over finite tables of sizes. */
module SizeSums {

  ghost function Sum(m: map<nat, nat>): nat {
    if m == map[] then 0 else
    var k :| k in m;
    m[k] + Sum(m - {k})
  }

  lemma {:induction false} SumWithout(m: map<nat, nat>, k: nat)
    requires k in m
    ensures Sum(m) == m[k] + Sum(m - {k})
    decreases |m|
  {
    var j :| j in m && Sum(m) == m[j] + Sum(m - {j});
    if j != k {
      SumWithout(m - {j}, k);
      SumWithout(m - {k}, j);
      assert m - {j} - {k} == m - {k} - {j};
    }
  }

  lemma SumWith(m: map<nat, nat>, k: nat, v: nat)
    requires k !in m
    ensures Sum(m[k := v]) == Sum(m) + v
  {
    SumWithout(m[k := v], k);
    assert m[k := v] - {k} == m;
  }
}

/** One column family's table of blob files, with its range index, obsolete list and level sizes. */
module BlobStorages {
  import opened Order
  import opened Coding
  import opened VersionEdits
  import opened SizeSums

  datatype RangeEntry = RangeEntry(key: Bytes, number: nat)

  datatype ObsoleteEntry = ObsoleteEntry(number: nat, sequence: nat)

  // The range index: one entry per file at its smallest key, in key order.

  ghost predicate InOrder(lt: (Bytes, Bytes) -> bool, ranges: seq<RangeEntry>) {
    forall i, j :: 0 <= i < j < |ranges| ==> !lt(ranges[j].key, ranges[i].key)
  }

  ghost predicate Indexes(ranges: seq<RangeEntry>, files: map<nat, Meta>) {
    && (forall i :: 0 <= i < |ranges| ==> ranges[i].number in files && ranges[i].key == files[ranges[i].number].smallest)
    && (forall n :: n in files ==> RangeEntry(files[n].smallest, n) in ranges)
    && (forall i, j :: 0 <= i < j < |ranges| ==> ranges[i].number != ranges[j].number)
  }

  /** The first position whose key is not less than `key`. */
  method LowerBound(lt: (Bytes, Bytes) -> bool, ranges: seq<RangeEntry>, key: Bytes) returns (p: nat)
    requires StrictTotal(lt) && InOrder(lt, ranges)
    ensures p <= |ranges|
    ensures forall i :: 0 <= i < p ==> lt(ranges[i].key, key)
    ensures forall i :: p <= i < |ranges| ==> !lt(ranges[i].key, key)
  {
    p := 0;
    while p < |ranges| && lt(ranges[p].key, key)
      invariant p <= |ranges|
      invariant forall i :: 0 <= i < p ==> lt(ranges[i].key, key)
    {
      p := p + 1;
    }
    if p < |ranges| {
      forall i | p <= i < |ranges| ensures !lt(ranges[i].key, key) {
        NotBelow(lt, ranges[p].key, ranges[i].key, key);
      }
    }
  }

  lemma NotBelow(lt: (Bytes, Bytes) -> bool, a: Bytes, b: Bytes, key: Bytes)
    requires StrictTotal(lt) && !lt(a, key) && (a == b || !lt(b, a))
    ensures !lt(b, key)
  {
    assert a != key ==> lt(key, a);
    assert a != b ==> lt(a, b);
  }

  /** The first position whose key is greater than `key`. */
  method UpperBound(lt: (Bytes, Bytes) -> bool, ranges: seq<RangeEntry>, key: Bytes) returns (p: nat)
    requires StrictTotal(lt) && InOrder(lt, ranges)
    ensures p <= |ranges|
    ensures forall i :: 0 <= i < p ==> !lt(key, ranges[i].key)
    ensures forall i :: p <= i < |ranges| ==> lt(key, ranges[i].key)
  {
    p := 0;
    while p < |ranges| && !lt(key, ranges[p].key)
      invariant p <= |ranges|
      invariant forall i :: 0 <= i < p ==> !lt(key, ranges[i].key)
    {
      p := p + 1;
    }
    if p < |ranges| {
      forall i | p <= i < |ranges| ensures lt(key, ranges[i].key) {
        Above(lt, key, ranges[p].key, ranges[i].key);
      }
    }
  }

  lemma Above(lt: (Bytes, Bytes) -> bool, key: Bytes, a: Bytes, b: Bytes)
    requires StrictTotal(lt) && lt(key, a) && (a == b || !lt(b, a))
    ensures lt(key, b)
  {
    assert a != b ==> lt(a, b);
  }

  method InsertRange(lt: (Bytes, Bytes) -> bool, ranges: seq<RangeEntry>, e: RangeEntry, ghost files: map<nat, Meta>, ghost m: Meta)
    returns (r: seq<RangeEntry>)
    requires StrictTotal(lt) && InOrder(lt, ranges) && Indexes(ranges, files)
    requires m.number !in files && e == RangeEntry(m.smallest, m.number)
    ensures InOrder(lt, r) && Indexes(r, files[m.number := m])
  {
    var p := UpperBound(lt, ranges, e.key);
    r := ranges[..p] + [e] + ranges[p..];
    Inserted(ranges, e, p, r);
    forall i, j | 0 <= i < j < |r| ensures !lt(r[j].key, r[i].key) {
      if j == p {
        assert r[i] == ranges[i];
      } else if i == p {
        assert r[j] == ranges[j - 1];
      } else {
        var i', j' := if i < p then i else i - 1, if j < p then j else j - 1;
        assert r[i] == ranges[i'] && r[j] == ranges[j'];
      }
    }
    InsertIndexed(ranges, e, p, r, files, m);
  }

  lemma Inserted(ranges: seq<RangeEntry>, e: RangeEntry, p: nat, r: seq<RangeEntry>)
    requires p <= |ranges| && r == ranges[..p] + [e] + ranges[p..]
    ensures |r| == |ranges| + 1 && r[p] == e
    ensures forall i :: 0 <= i < p ==> r[i] == ranges[i]
    ensures forall i :: p < i < |r| ==> r[i] == ranges[i - 1]
  {
  }

  lemma InsertIndexed(ranges: seq<RangeEntry>, e: RangeEntry, p: nat, r: seq<RangeEntry>, files: map<nat, Meta>, m: Meta)
    requires p <= |ranges| && r == ranges[..p] + [e] + ranges[p..] && Indexes(ranges, files)
    requires m.number !in files && e == RangeEntry(m.smallest, m.number)
    ensures Indexes(r, files[m.number := m])
  {
    Inserted(ranges, e, p, r);
    var after := files[m.number := m];
    forall n | n in after ensures RangeEntry(after[n].smallest, n) in r {
      if n != m.number {
        var i :| 0 <= i < |ranges| && ranges[i] == RangeEntry(files[n].smallest, n);
        if i < p { assert r[i] == ranges[i]; } else { assert r[i + 1] == ranges[i]; }
      } else {
        assert r[p] == e;
      }
    }
    forall i, j | 0 <= i < j < |r| ensures r[i].number != r[j].number {
      if i != p && j != p {
        var i', j' := if i < p then i else i - 1, if j < p then j else j - 1;
        assert r[i] == ranges[i'] && r[j] == ranges[j'];
      }
    }
  }

  /** Finds the entry of a file, looking only among the entries with its smallest key. */
  method FindRange(lt: (Bytes, Bytes) -> bool, ranges: seq<RangeEntry>, files: map<nat, Meta>, number: nat) returns (i: nat)
    requires StrictTotal(lt) && InOrder(lt, ranges) && Indexes(ranges, files) && number in files
    ensures i < |ranges| && ranges[i].number == number
  {
    var lo := LowerBound(lt, ranges, files[number].smallest);
    var hi := UpperBound(lt, ranges, files[number].smallest);
    ghost var at :| 0 <= at < |ranges| && ranges[at] == RangeEntry(files[number].smallest, number);
    assert lo <= at < hi;
    i := lo;
    while i < hi && ranges[i].number != number
      invariant lo <= i <= at
    {
      i := i + 1;
    }
  }

  method RemoveRange(lt: (Bytes, Bytes) -> bool, ranges: seq<RangeEntry>, files: map<nat, Meta>, number: nat)
    returns (r: seq<RangeEntry>)
    requires StrictTotal(lt) && InOrder(lt, ranges) && Indexes(ranges, files) && number in files
    ensures InOrder(lt, r) && Indexes(r, files - {number})
  {
    var i := FindRange(lt, ranges, files, number);
    r := ranges[..i] + ranges[i + 1..];
    RemoveIndexed(ranges, files, number, i, r);
    RemoveInOrder(lt, ranges, i, r);
  }

  lemma Removed(ranges: seq<RangeEntry>, i: nat, r: seq<RangeEntry>)
    requires i < |ranges| && r == ranges[..i] + ranges[i + 1..]
    ensures |r| == |ranges| - 1
    ensures forall j :: 0 <= j < i ==> r[j] == ranges[j]
    ensures forall j :: i <= j < |r| ==> r[j] == ranges[j + 1]
  {
  }

  lemma RemoveInOrder(lt: (Bytes, Bytes) -> bool, ranges: seq<RangeEntry>, i: nat, r: seq<RangeEntry>)
    requires InOrder(lt, ranges) && i < |ranges| && r == ranges[..i] + ranges[i + 1..]
    ensures InOrder(lt, r)
  {
    Removed(ranges, i, r);
    forall j, k | 0 <= j < k < |r| ensures !lt(r[k].key, r[j].key) {
      var j', k' := if j < i then j else j + 1, if k < i then k else k + 1;
      assert r[j] == ranges[j'] && r[k] == ranges[k'];
    }
  }

  lemma StillIndexed(ranges: seq<RangeEntry>, e: RangeEntry, i: nat, r: seq<RangeEntry>)
    requires i < |ranges| && r == ranges[..i] + ranges[i + 1..] && e in ranges && e != ranges[i]
    ensures e in r
  {
    Removed(ranges, i, r);
    var j :| 0 <= j < |ranges| && ranges[j] == e;
    if j < i { assert r[j] == e; } else { assert r[j - 1] == e; }
  }

  lemma RemoveIndexed(ranges: seq<RangeEntry>, files: map<nat, Meta>, number: nat, i: nat, r: seq<RangeEntry>)
    requires Indexes(ranges, files) && i < |ranges| && ranges[i].number == number
    requires r == ranges[..i] + ranges[i + 1..]
    ensures Indexes(r, files - {number})
  {
    var after := files - {number};
    forall n | n in after ensures RangeEntry(after[n].smallest, n) in r {
      StillIndexed(ranges, RangeEntry(files[n].smallest, n), i, r);
    }
    Removed(ranges, i, r);
    forall j | 0 <= j < |r| ensures r[j].number in after && r[j].key == after[r[j].number].smallest {
      var j' := if j < i then j else j + 1;
      assert r[j] == ranges[j'];
    }
    forall j, k | 0 <= j < k < |r| ensures r[j].number != r[k].number {
      var j', k' := if j < i then j else j + 1, if k < i then k else k + 1;
      assert r[j] == ranges[j'] && r[k] == ranges[k'];
    }
  }

  // Obsolete list and level sizes.

  ghost predicate Named(list: seq<ObsoleteEntry>, n: nat) {
    exists i :: 0 <= i < |list| && list[i].number == n
  }

  ghost predicate ListsObsolete(list: seq<ObsoleteEntry>, obsolete: set<nat>) {
    && (forall n :: n in obsolete <==> Named(list, n))
    && (forall i, j :: 0 <= i < j < |list| ==> list[i].number != list[j].number)
  }

  /** Sorted files count towards their level, unsorted ones towards an extra slot. */
  function Slot(m: Meta, numLevels: nat): nat {
    if m.kind == SORTED then m.level else numLevels
  }

  function SlotSizes(files: map<nat, Meta>, obsolete: set<nat>, numLevels: nat, slot: nat): map<nat, nat> {
    map n | n in files && n !in obsolete && Slot(files[n], numLevels) == slot :: files[n].size
  }

  ghost predicate LevelsAddUp(sizes: seq<int>, files: map<nat, Meta>, obsolete: set<nat>, numLevels: nat) {
    |sizes| == numLevels + 1 && forall s :: 0 <= s <= numLevels ==> sizes[s] == Sum(SlotSizes(files, obsolete, numLevels, s))
  }

  lemma SlotAfterAdd(files: map<nat, Meta>, obsolete: set<nat>, numLevels: nat, m: Meta, s: nat)
    requires m.number !in files && m.number !in obsolete
    ensures Sum(SlotSizes(files[m.number := m], obsolete, numLevels, s))
      == Sum(SlotSizes(files, obsolete, numLevels, s)) + if s == Slot(m, numLevels) then m.size else 0
  {
    var before, after := SlotSizes(files, obsolete, numLevels, s), SlotSizes(files[m.number := m], obsolete, numLevels, s);
    if s == Slot(m, numLevels) {
      assert after == before[m.number := m.size];
      SumWith(before, m.number, m.size);
    } else {
      assert after == before;
    }
  }

  lemma LevelsAfterAdd(sizes: seq<int>, files: map<nat, Meta>, obsolete: set<nat>, numLevels: nat, m: Meta)
    requires LevelsAddUp(sizes, files, obsolete, numLevels) && m.number !in files && m.number !in obsolete && Slot(m, numLevels) <= numLevels
    ensures var s := Slot(m, numLevels); LevelsAddUp(sizes[s := sizes[s] + m.size], files[m.number := m], obsolete, numLevels)
  {
    forall s | 0 <= s <= numLevels
      ensures Sum(SlotSizes(files[m.number := m], obsolete, numLevels, s)) == sizes[s] + if s == Slot(m, numLevels) then m.size else 0
    {
      SlotAfterAdd(files, obsolete, numLevels, m, s);
    }
  }

  /** Marking a file takes its size off its slot, which holds at least that much. */
  lemma LevelsAfterMark(sizes: seq<int>, files: map<nat, Meta>, obsolete: set<nat>, numLevels: nat, n: nat)
    requires LevelsAddUp(sizes, files, obsolete, numLevels) && n in files && n !in obsolete && Slot(files[n], numLevels) <= numLevels
    ensures var s := Slot(files[n], numLevels);
      sizes[s] >= files[n].size && LevelsAddUp(sizes[s := sizes[s] - files[n].size], files, obsolete + {n}, numLevels)
  {
    forall s | 0 <= s <= numLevels
      ensures Sum(SlotSizes(files, obsolete, numLevels, s))
        == Sum(SlotSizes(files, obsolete + {n}, numLevels, s)) + if s == Slot(files[n], numLevels) then files[n].size else 0
    {
      var before, after := SlotSizes(files, obsolete, numLevels, s), SlotSizes(files, obsolete + {n}, numLevels, s);
      if s == Slot(files[n], numLevels) {
        assert after == before - {n};
        SumWithout(before, n);
      } else {
        assert after == before;
      }
    }
  }

  lemma LevelsAfterRemove(sizes: seq<int>, files: map<nat, Meta>, obsolete: set<nat>, numLevels: nat, n: nat)
    requires LevelsAddUp(sizes, files, obsolete, numLevels) && n in obsolete
    ensures LevelsAddUp(sizes, files - {n}, obsolete - {n}, numLevels)
  {
    forall s | 0 <= s <= numLevels ensures SlotSizes(files - {n}, obsolete - {n}, numLevels, s) == SlotSizes(files, obsolete, numLevels, s) {}
  }

  // Which files lie in a range.

  /** A range to search; None is an open side. */
  datatype Range = Range(begin: Option<Bytes>, end: Option<Bytes>)

  ghost predicate Proper(lt: (Bytes, Bytes) -> bool, range: Range) {
    range.begin.Some? && range.end.Some? ==> !lt(range.end.value, range.begin.value)
  }

  /** The file's keys all lie in the range. A file of unknown bounds counts only when there is no upper side. */
  predicate Within(lt: (Bytes, Bytes) -> bool, m: Meta, range: Range, includeEnd: bool) {
    && (range.begin.Some? ==> !lt(m.smallest, range.begin.value))
    && (range.end.Some? ==> m.largest != [] && (if includeEnd then !lt(range.end.value, m.largest) else lt(m.largest, range.end.value)))
  }

  ghost predicate KeysInOrder(lt: (Bytes, Bytes) -> bool, files: map<nat, Meta>) {
    forall n :: n in files ==> !lt(files[n].largest, files[n].smallest)
  }

  /** Beyond the upper side no file can lie within the range. */
  lemma NotBeyond(lt: (Bytes, Bytes) -> bool, m: Meta, range: Range, includeEnd: bool)
    requires StrictTotal(lt) && !lt(m.largest, m.smallest) && range.end.Some? && lt(range.end.value, m.smallest)
    ensures !Within(lt, m, range, includeEnd)
  {
    assert m.smallest != m.largest ==> lt(m.smallest, m.largest);
  }

  lemma PastEnd(lt: (Bytes, Bytes) -> bool, begin: Bytes, end: Bytes, key: Bytes)
    requires StrictTotal(lt) && !lt(end, begin) && lt(end, key)
    ensures !lt(key, begin)
  {
  }

  class BlobStorage {
    const lt: (Bytes, Bytes) -> bool
    const numLevels: nat
    var files: map<nat, Meta>
    var obsolete: set<nat>
    var ranges: seq<RangeEntry>
    var obsoleteFiles: seq<ObsoleteEntry>
    var levelSizes: seq<int>

    /** All but the obsolete list, which the purge loop rewrites. */
    ghost predicate Core()
      reads this
    {
      && StrictTotal(lt)
      && InOrder(lt, ranges) && Indexes(ranges, files)
      && obsolete <= files.Keys
      && (forall n :: n in files ==> files[n].number == n && Slot(files[n], numLevels) <= numLevels)
      && LevelsAddUp(levelSizes, files, obsolete, numLevels)
    }

    ghost predicate Valid()
      reads this
    {
      Core() && ListsObsolete(obsoleteFiles, obsolete)
    }

    constructor (lt: (Bytes, Bytes) -> bool, numLevels: nat)
      requires StrictTotal(lt)
      ensures Valid() && files == map[] && obsolete == {} && this.lt == lt && this.numLevels == numLevels
    {
      this.lt, this.numLevels := lt, numLevels;
      files, obsolete, ranges, obsoleteFiles := map[], {}, [], [];
      levelSizes := seq(numLevels + 1, _ => 0);
      new;
      assert forall s: nat :: SlotSizes(map[], {}, numLevels, s) == map[];
    }

    /** A sealed edit adds only files with new numbers. */
    method AddBlobFile(m: Meta)
      requires Valid() && m.number !in files && Slot(m, numLevels) <= numLevels
      modifies this
      ensures Valid() && files == old(files)[m.number := m] && obsolete == old(obsolete)
    {
      LevelsAfterAdd(levelSizes, files, obsolete, numLevels, m);
      ranges := InsertRange(lt, ranges, RangeEntry(m.smallest, m.number), files, m);
      files := files[m.number := m];
      var s := Slot(m, numLevels);
      levelSizes := levelSizes[s := levelSizes[s] + m.size];
    }

    /** A sealed edit deletes only files that are not obsolete yet. */
    method MarkFileObsolete(n: nat, sequence: nat) returns (found: bool)
      requires Valid() && n !in obsolete
      modifies this
      ensures Valid() && found == (n in old(files)) && files == old(files)
      ensures obsolete == if found then old(obsolete) + {n} else old(obsolete)
      ensures obsoleteFiles == if found then old(obsoleteFiles) + [ObsoleteEntry(n, sequence)] else old(obsoleteFiles)
    {
      if n !in files { return false; }
      LevelsAfterMark(levelSizes, files, obsolete, numLevels, n);
      ListedMore(obsoleteFiles, obsolete, n, sequence);
      obsoleteFiles := obsoleteFiles + [ObsoleteEntry(n, sequence)];
      obsolete := obsolete + {n};
      var s := Slot(files[n], numLevels);
      levelSizes := levelSizes[s := levelSizes[s] - files[n].size];
      return true;
    }

    method RemoveFile(n: nat) returns (removed: bool)
      requires Core() && (n in files ==> n in obsolete)
      modifies `files, `ranges, `obsolete
      ensures Core() && removed == (n in old(files))
      ensures files == old(files) - {n} && obsolete == old(obsolete) - {n}
    {
      if n !in files { return false; }
      LevelsAfterRemove(levelSizes, files, obsolete, numLevels, n);
      ranges := RemoveRange(lt, ranges, files, n);
      files, obsolete := files - {n}, obsolete - {n};
      return true;
    }

    /** Removes one file and notes its number. */
    method PurgeOne(n: nat, before: seq<nat>) returns (gone: seq<nat>, removed: bool)
      requires Core() && n in obsolete
      modifies `files, `ranges, `obsolete
      ensures Core() && removed && gone == before + [n] && Elements(gone) == Elements(before) + {n}
      ensures files == old(files) - {n} && obsolete == old(obsolete) - {n}
    {
      removed := RemoveFile(n);
      gone := before + [n];
    }

    method PurgeDue(all: seq<ObsoleteEntry>, oldest: nat) returns (gone: seq<nat>, kept: seq<ObsoleteEntry>, missed: bool)
      requires Core() && ListsObsolete(all, obsolete)
      modifies `files, `ranges, `obsolete
      ensures Core() && !missed && SplitAt(all, |all|, oldest, gone, kept)
      ensures files == old(files) - Elements(gone) && obsolete == old(obsolete) - Elements(gone)
    {
      gone, kept, missed := [], [], false;
      for i := 0 to |all|
        invariant Core() && !missed && SplitAt(all, i, oldest, gone, kept)
        invariant files == old(files) - Elements(gone) && obsolete == old(obsolete) - Elements(gone)
      {
        SplitStep(all, i, oldest, gone, kept);
        if oldest > all[i].sequence {
          StillThere(all, old(obsolete), i, oldest);
          var removed;
          gone, removed := PurgeOne(all[i].number, gone);
          missed := missed || !removed;
        } else {
          kept := kept + [all[i]];
        }
      }
    }

    /** Drops the obsolete files that no snapshot older than `oldest` can see; removal never misses. */
    method GetObsoleteFiles(oldest: nat) returns (gone: seq<nat>, missed: bool)
      requires Valid()
      modifies `files, `ranges, `obsolete, `obsoleteFiles
      ensures Valid() && !missed
      ensures gone == NumbersIn(Due(old(obsoleteFiles), oldest))
      ensures obsoleteFiles == NotDue(old(obsoleteFiles), oldest)
      ensures files == old(files) - Elements(gone) && obsolete == old(obsolete) - Elements(gone)
    {
      var kept;
      gone, kept, missed := PurgeDue(obsoleteFiles, oldest);
      assert old(obsoleteFiles)[..|old(obsoleteFiles)|] == old(obsoleteFiles);
      KeptListed(old(obsoleteFiles), old(obsolete), oldest);
      obsoleteFiles := kept;
    }

    /** The files of one range: exactly the ones that are not obsolete and lie within it, each once. */
    method GetBlobFilesInRange(range: Range, includeEnd: bool) returns (found: seq<nat>)
      requires Valid() && KeysInOrder(lt, files) && Proper(lt, range)
      ensures Distinct(found)
      ensures forall n :: n in found <==> n in files && n !in obsolete && Within(lt, files[n], range, includeEnd)
    {
      var lo, hi := 0, |ranges|;
      if range.begin.Some? { lo := LowerBound(lt, ranges, range.begin.value); }
      if range.end.Some? { hi := UpperBound(lt, ranges, range.end.value); }
      if range.begin.Some? && range.end.Some? && hi < |ranges| {
        PastEnd(lt, range.begin.value, range.end.value, ranges[hi].key);
      }
      found := CollectRange(range, includeEnd, lo, hi);
      forall n | n in files && n !in obsolete && Within(lt, files[n], range, includeEnd) ensures n in found {
        var i :| 0 <= i < |ranges| && ranges[i] == RangeEntry(files[n].smallest, n);
        if i >= hi { NotBeyond(lt, files[n], range, includeEnd); }
      }
    }

    method CollectRange(range: Range, includeEnd: bool, lo: nat, hi: nat) returns (found: seq<nat>)
      requires Valid() && lo <= hi <= |ranges|
      requires forall i :: lo <= i < |ranges| && range.begin.Some? ==> !lt(ranges[i].key, range.begin.value)
      ensures Distinct(found)
      ensures forall n :: n in found ==> n in files && n !in obsolete && Within(lt, files[n], range, includeEnd)
      ensures forall i :: lo <= i < hi && ranges[i].number !in obsolete && Within(lt, files[ranges[i].number], range, includeEnd) ==>
        ranges[i].number in found
    {
      found := [];
      var i := lo;
      while i < hi
        invariant lo <= i <= hi
        invariant Distinct(found)
        invariant forall n :: n in found ==> n in files && n !in obsolete && Within(lt, files[n], range, includeEnd)
        invariant forall n :: n in found ==> exists k :: lo <= k < i && ranges[k].number == n
        invariant forall k :: lo <= k < i && ranges[k].number !in obsolete && Within(lt, files[ranges[k].number], range, includeEnd) ==>
          ranges[k].number in found
      {
        var m := files[ranges[i].number];
        if ranges[i].number !in obsolete && !(m.largest == [] && range.end.Some?) {
          if range.end.None? || (includeEnd && !lt(range.end.value, m.largest)) || (!includeEnd && lt(m.largest, range.end.value)) {
            assert m.number !in found && m.number == ranges[i].number;
            found := found + [m.number];
          }
        }
        i := i + 1;
      }
    }

    /** The files of several ranges, range after range. */
    method GetBlobFilesInRanges(searched: seq<Range>, includeEnd: bool) returns (found: seq<nat>)
      requires Valid() && KeysInOrder(lt, files) && forall i :: 0 <= i < |searched| ==> Proper(lt, searched[i])
      ensures forall n :: n in found <==>
        n in files && n !in obsolete && exists i :: 0 <= i < |searched| && Within(lt, files[n], searched[i], includeEnd)
    {
      found := [];
      for i := 0 to |searched|
        invariant forall n :: n in found <==>
          n in files && n !in obsolete && exists k :: 0 <= k < i && Within(lt, files[n], searched[k], includeEnd)
      {
        var more := GetBlobFilesInRange(searched[i], includeEnd);
        found := found + more;
      }
    }
  }

  lemma ListedMore(list: seq<ObsoleteEntry>, obsolete: set<nat>, n: nat, sequence: nat)
    requires ListsObsolete(list, obsolete) && n !in obsolete
    ensures ListsObsolete(list + [ObsoleteEntry(n, sequence)], obsolete + {n})
  {
    var more := list + [ObsoleteEntry(n, sequence)];
    assert more[|list|].number == n;
    assert forall i :: 0 <= i < |list| ==> more[i] == list[i];
    forall k | k in obsolete ensures Named(more, k) {
      var i :| 0 <= i < |list| && list[i].number == k;
      assert more[i].number == k;
    }
  }

  // Splitting the obsolete list at a sequence.

  function Due(list: seq<ObsoleteEntry>, oldest: nat): seq<ObsoleteEntry> {
    if list == [] then [] else
    var e := list[|list| - 1];
    Due(list[..|list| - 1], oldest) + if oldest > e.sequence then [e] else []
  }

  function NotDue(list: seq<ObsoleteEntry>, oldest: nat): seq<ObsoleteEntry> {
    if list == [] then [] else
    var e := list[|list| - 1];
    NotDue(list[..|list| - 1], oldest) + if oldest > e.sequence then [] else [e]
  }

  function NumbersIn(list: seq<ObsoleteEntry>): seq<nat> {
    seq(|list|, i requires 0 <= i < |list| => list[i].number)
  }

  /** What the purge loop has gone through: numbers to drop and entries to keep. */
  ghost predicate SplitAt(list: seq<ObsoleteEntry>, i: nat, oldest: nat, gone: seq<nat>, kept: seq<ObsoleteEntry>) {
    i <= |list| && gone == NumbersIn(Due(list[..i], oldest)) && kept == NotDue(list[..i], oldest)
  }

  lemma SplitStep(list: seq<ObsoleteEntry>, i: nat, oldest: nat, gone: seq<nat>, kept: seq<ObsoleteEntry>)
    requires i < |list| && SplitAt(list, i, oldest, gone, kept)
    ensures oldest > list[i].sequence ==> SplitAt(list, i + 1, oldest, gone + [list[i].number], kept)
    ensures oldest <= list[i].sequence ==> SplitAt(list, i + 1, oldest, gone, kept + [list[i]])
  {
    assert list[..i + 1][..i] == list[..i];
  }

  lemma {:induction false} SplitMembers(list: seq<ObsoleteEntry>, oldest: nat, e: ObsoleteEntry)
    ensures e in Due(list, oldest) <==> e in list && oldest > e.sequence
    ensures e in NotDue(list, oldest) <==> e in list && oldest <= e.sequence
  {
    if list != [] {
      var n := |list| - 1;
      SplitMembers(list[..n], oldest, e);
      assert list == list[..n] + [list[n]];
    }
  }

  lemma StillThere(list: seq<ObsoleteEntry>, obsolete: set<nat>, i: nat, oldest: nat)
    requires ListsObsolete(list, obsolete) && i < |list|
    ensures list[i].number in obsolete && list[i].number !in Elements(NumbersIn(Due(list[..i], oldest)))
  {
    var due := Due(list[..i], oldest);
    forall j | 0 <= j < |due| ensures due[j].number != list[i].number {
      SplitMembers(list[..i], oldest, due[j]);
      var k :| 0 <= k < i && list[..i][k] == due[j];
      assert list[k] == due[j];
    }
  }

  lemma {:induction false} NotDueDistinct(list: seq<ObsoleteEntry>, oldest: nat)
    requires forall i, j :: 0 <= i < j < |list| ==> list[i].number != list[j].number
    ensures var kept := NotDue(list, oldest); forall i, j :: 0 <= i < j < |kept| ==> kept[i].number != kept[j].number
  {
    if list != [] {
      var n := |list| - 1;
      NotDueDistinct(list[..n], oldest);
      var before := NotDue(list[..n], oldest);
      forall i | 0 <= i < |before| ensures before[i].number != list[n].number {
        SplitMembers(list[..n], oldest, before[i]);
        var k :| 0 <= k < n && list[..n][k] == before[i];
        assert list[k] == before[i];
      }
    }
  }

  lemma KeptListed(list: seq<ObsoleteEntry>, obsolete: set<nat>, oldest: nat)
    requires ListsObsolete(list, obsolete)
    ensures ListsObsolete(NotDue(list, oldest), obsolete - Elements(NumbersIn(Due(list, oldest))))
  {
    NotDueDistinct(list, oldest);
    var kept, due := NotDue(list, oldest), Due(list, oldest);
    forall n ensures n in obsolete - Elements(NumbersIn(due)) <==> Named(kept, n) {
      KeptOne(list, obsolete, oldest, n);
    }
  }

  lemma KeptOne(list: seq<ObsoleteEntry>, obsolete: set<nat>, oldest: nat, n: nat)
    requires ListsObsolete(list, obsolete)
    ensures n in obsolete - Elements(NumbersIn(Due(list, oldest))) <==> Named(NotDue(list, oldest), n)
  {
    var kept, due := NotDue(list, oldest), Due(list, oldest);
    if n in obsolete {
      assert Named(list, n);
      var k :| 0 <= k < |list| && list[k].number == n;
      SplitMembers(list, oldest, list[k]);
      if n in NumbersIn(due) {
        var j :| 0 <= j < |due| && due[j].number == n;
        SplitMembers(list, oldest, due[j]);
      }
      if list[k] in due {
        var j :| 0 <= j < |due| && due[j] == list[k];
        assert NumbersIn(due)[j] == n;
      } else {
        var i :| 0 <= i < |kept| && kept[i] == list[k];
        assert kept[i].number == n;
      }
    }
    forall i | 0 <= i < |kept| && kept[i].number == n ensures n in obsolete && n !in NumbersIn(due) {
      KeptNotDue(list, obsolete, oldest, i);
    }
  }

  lemma KeptNotDue(list: seq<ObsoleteEntry>, obsolete: set<nat>, oldest: nat, i: nat)
    requires ListsObsolete(list, obsolete) && i < |NotDue(list, oldest)|
    ensures var n := NotDue(list, oldest)[i].number; n in obsolete && n !in NumbersIn(Due(list, oldest))
  {
    var kept, due := NotDue(list, oldest), Due(list, oldest);
    var n := kept[i].number;
    SplitMembers(list, oldest, kept[i]);
    var k :| 0 <= k < |list| && list[k] == kept[i];
    forall j | 0 <= j < |due| ensures due[j].number != n {
      SplitMembers(list, oldest, due[j]);
      var l :| 0 <= l < |list| && list[l] == due[j];
    }
  }
}
