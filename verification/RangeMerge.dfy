/** Marking the blob files whose key range crosses too many others. */
module RangeMerge {
  import opened Order
  import opened FileStates
  import opened BlobFiles

  /** One end of a file's key range. */
  datatype End<K> = End(file: BlobFileMeta<K>, isSmallest: bool) {
    function Key(): K {
      if isSmallest then file.smallest else file.largest
    }
  }

  /**
   * The sweep's comparator: at one key, largest ends come before smallest ends, except that a
   * file's own smallest end comes first. It calls a smallest end less than itself, so it is only
   * ever an order among distinct ends.
   */
  predicate EndLess<K(==)>(lt: (K, K) -> bool, a: End<K>, b: End<K>) {
    if a.Key() != b.Key() then lt(a.Key(), b.Key())
    else if a.file == b.file then a.isSmallest
    else !a.isSmallest && b.isSmallest
  }

  ghost function EndSet<K>(files: seq<BlobFileMeta<K>>): set<End<K>> {
    (set f | f in files :: End(f, true)) + (set f | f in files :: End(f, false))
  }

  /** A file holding a single key shares that key with no end of another file. */
  ghost predicate LoneKeysApart<K>(files: seq<BlobFileMeta<K>>) {
    forall f, g :: f in files && g in files && f != g && f.smallest == f.largest
      ==> g.smallest != f.smallest && g.largest != f.smallest
  }

  // The comparator orders the ends exactly when single-key files stand alone.

  function Rank<K(==)>(e: End<K>): int {
    if e.file.smallest == e.file.largest then (if e.isSmallest then 0 else 1)
    else if e.isSmallest then 1 else 0
  }

  ghost predicate RankLess<K>(lt: (K, K) -> bool, a: End<K>, b: End<K>) {
    lt(a.Key(), b.Key()) || (a.Key() == b.Key() && Rank(a) < Rank(b))
  }

  lemma EndLessIsRankLess<K(!new)>(lt: (K, K) -> bool, files: seq<BlobFileMeta<K>>, a: End<K>, b: End<K>)
    requires StrictTotal(lt) && LoneKeysApart(files)
    requires a.file in files && b.file in files && a != b
    ensures EndLess(lt, a, b) <==> RankLess(lt, a, b)
  {
    if a.Key() == b.Key() && a.file != b.file {
      assert a.file.smallest != a.file.largest && b.file.smallest != b.file.largest;
    }
  }

  lemma LoneKeysApartSuffices<K(!new)>(lt: (K, K) -> bool, files: seq<BlobFileMeta<K>>)
    requires StrictTotal(lt) && LoneKeysApart(files)
    ensures StrictWeakAmong((a, b) => EndLess(lt, a, b), EndSet(files))
  {
    var less := (a, b) => EndLess(lt, a, b);
    var s := EndSet(files);
    forall a, b | a in s && b in s && a != b ensures less(a, b) <==> RankLess(lt, a, b) {
      EndLessIsRankLess(lt, files, a, b);
    }
  }

  lemma LoneKeysApartNeeded<K(!new)>(lt: (K, K) -> bool, files: seq<BlobFileMeta<K>>)
    requires StrictTotal(lt)
    requires StrictWeakAmong((a, b) => EndLess(lt, a, b), EndSet(files))
    ensures LoneKeysApart(files)
  {
    var less := (a, b) => EndLess(lt, a, b);
    forall f, g | f in files && g in files && f != g && f.smallest == f.largest
      ensures g.smallest != f.smallest && g.largest != f.smallest
    {
      var fs, fl, gs, gl := End(f, true), End(f, false), End(g, true), End(g, false);
      assert fs in EndSet(files) && fl in EndSet(files) && gs in EndSet(files) && gl in EndSet(files);
      assert less(fs, fl);
      assert g.largest == f.smallest ==> less(gl, fs) && !less(gl, fl);
      assert g.smallest == f.smallest ==> less(fl, gs) && !less(fs, gs);
    }
  }

  lemma ComparatorOrdersEndsIff<K(!new)>(lt: (K, K) -> bool, files: seq<BlobFileMeta<K>>)
    requires StrictTotal(lt)
    ensures StrictWeakAmong((a, b) => EndLess(lt, a, b), EndSet(files)) <==> LoneKeysApart(files)
  {
    if LoneKeysApart(files) { LoneKeysApartSuffices(lt, files); }
    if StrictWeakAmong((a, b) => EndLess(lt, a, b), EndSet(files)) { LoneKeysApartNeeded(lt, files); }
  }

  /** An end is less than itself exactly when it is a smallest end, so the comparator is irreflexive on no list of files. */
  lemma ComparatorIsReflexive<K(!new)>(lt: (K, K) -> bool, files: seq<BlobFileMeta<K>>)
    ensures forall e :: e in EndSet(files) ==> (EndLess(lt, e, e) <==> e.isSmallest)
    ensures (forall e :: e in EndSet(files) ==> !EndLess(lt, e, e)) <==> files == []
  {
    if files != [] {
      var e := End(files[0], true);
      assert e in EndSet(files) && EndLess(lt, e, e);
    }
  }

  /** Two files, one of them holding a single key that is the other's smallest: the comparator does not order their ends. */
  method SharedLoneKey(key: Bytes, above: Bytes) returns (files: seq<BlobFileMeta<Bytes>>)
    requires BytesLess(key, above)
    ensures Bounded(BytesLess, files) && Distinct(files)
    ensures !StrictWeakAmong((a, b) => EndLess(BytesLess, a, b), EndSet(files))
  {
    var lone := new BlobFileMeta(key, key);
    var wide := new BlobFileMeta(key, above);
    files := [lone, wide];
    BytesLessIsStrictTotal();
    ComparatorOrdersEndsIff(BytesLess, files);
    assert lone in files && wide in files && lone != wide;
  }

  // What the sweep's counters mean.

  /** The listed files whose open key range meets the file's own, and the file itself. */
  ghost function Crossing<K>(lt: (K, K) -> bool, files: seq<BlobFileMeta<K>>, f: BlobFileMeta<K>): set<BlobFileMeta<K>> {
    set g | g in files && (g == f || (lt(g.smallest, f.largest) && lt(f.smallest, g.largest)))
  }

  ghost function StartedBefore<K>(lt: (K, K) -> bool, files: seq<BlobFileMeta<K>>, f: BlobFileMeta<K>): set<BlobFileMeta<K>> {
    set g | g in files && (g == f || lt(g.smallest, f.largest))
  }

  ghost function EndedBefore<K>(lt: (K, K) -> bool, files: seq<BlobFileMeta<K>>, f: BlobFileMeta<K>): set<BlobFileMeta<K>> {
    set g | g in files && g != f && !lt(f.smallest, g.largest)
  }

  lemma EndedHadStarted<K(!new)>(lt: (K, K) -> bool, files: seq<BlobFileMeta<K>>, f: BlobFileMeta<K>, g: BlobFileMeta<K>)
    requires StrictTotal(lt) && Bounded(lt, files) && LoneKeysApart(files)
    requires f in files && g in EndedBefore(lt, files, f)
    ensures g in StartedBefore(lt, files, f)
  {
    assert g.smallest == g.largest || lt(g.smallest, g.largest);
    assert g.largest == f.smallest || lt(g.largest, f.smallest);
    assert f.smallest == f.largest || lt(f.smallest, f.largest);
  }

  lemma CrossingCount<K(!new)>(lt: (K, K) -> bool, files: seq<BlobFileMeta<K>>, f: BlobFileMeta<K>)
    requires StrictTotal(lt) && Bounded(lt, files) && LoneKeysApart(files) && f in files
    ensures |StartedBefore(lt, files, f)| - |EndedBefore(lt, files, f)| == |Crossing(lt, files, f)|
  {
    var a, b := StartedBefore(lt, files, f), EndedBefore(lt, files, f);
    forall g | g in b ensures g in a { EndedHadStarted(lt, files, f, g); }
    assert Crossing(lt, files, f) == a - b;
  }

  /** `ends` lists both ends of every file, each once, in comparator order. */
  ghost predicate Swept<K>(lt: (K, K) -> bool, files: seq<BlobFileMeta<K>>, ends: seq<End<K>>) {
    && Sorted((a, b) => EndLess(lt, a, b), ends)
    && (forall i :: 0 <= i < |ends| ==> ends[i].file in files)
    && (forall f, s :: f in files ==> End(f, s) in ends)
    && (forall i, j :: 0 <= i < j < |ends| ==> ends[i] != ends[j])
  }

  ghost function Passed<K>(files: seq<BlobFileMeta<K>>, ends: seq<End<K>>, isSmallest: bool): set<BlobFileMeta<K>> {
    set g | g in files && End(g, isSmallest) in ends
  }

  lemma PassedIff<K(!new)>(lt: (K, K) -> bool, files: seq<BlobFileMeta<K>>, ends: seq<End<K>>, i: nat, e: End<K>)
    requires Swept(lt, files, ends) && i < |ends|
    requires e.file in files && e != ends[i]
    requires EndLess(lt, e, ends[i]) <==> !EndLess(lt, ends[i], e)
    ensures e in ends[..i] <==> EndLess(lt, e, ends[i])
  {
    var less := (a, b) => EndLess(lt, a, b);
    assert End(e.file, e.isSmallest) in ends;
    var j :| 0 <= j < |ends| && ends[j] == e;
    if j < i {
      assert ends[..i][j] == e && !less(ends[i], ends[j]);
    } else {
      assert !less(ends[j], ends[i]);
    }
  }

  lemma AtSmallestEnd<K(!new)>(lt: (K, K) -> bool, files: seq<BlobFileMeta<K>>, ends: seq<End<K>>, i: nat)
    requires StrictTotal(lt) && Bounded(lt, files) && Swept(lt, files, ends)
    requires i < |ends| && ends[i].isSmallest
    ensures Passed(files, ends[..i], false) == EndedBefore(lt, files, ends[i].file)
  {
    var f := ends[i].file;
    forall g | g in files ensures End(g, false) in ends[..i] <==> g != f && !lt(f.smallest, g.largest) {
      PassedIff(lt, files, ends, i, End(g, false));
    }
  }

  lemma AtLargestEnd<K(!new)>(lt: (K, K) -> bool, files: seq<BlobFileMeta<K>>, ends: seq<End<K>>, i: nat)
    requires StrictTotal(lt) && Bounded(lt, files) && Swept(lt, files, ends)
    requires i < |ends| && !ends[i].isSmallest
    ensures Passed(files, ends[..i], true) == StartedBefore(lt, files, ends[i].file)
  {
    var f := ends[i].file;
    forall g | g in files ensures End(g, true) in ends[..i] <==> g == f || lt(g.smallest, f.largest) {
      PassedIff(lt, files, ends, i, End(g, true));
    }
  }

  lemma PassedStep<K>(files: seq<BlobFileMeta<K>>, ends: seq<End<K>>, i: nat)
    requires i < |ends| && ends[i].file in files
    requires forall i, j :: 0 <= i < j < |ends| ==> ends[i] != ends[j]
    ensures ends[i].file !in Passed(files, ends[..i], ends[i].isSmallest)
    ensures Passed(files, ends[..i + 1], ends[i].isSmallest) == Passed(files, ends[..i], ends[i].isSmallest) + {ends[i].file}
    ensures Passed(files, ends[..i + 1], !ends[i].isSmallest) == Passed(files, ends[..i], !ends[i].isSmallest)
  {
    var e := ends[i];
    assert ends[..i + 1] == ends[..i] + [e];
  }

  // The sweep.

  method ListEnds<K>(files: seq<BlobFileMeta<K>>) returns (ends: seq<End<K>>)
    requires Distinct(files)
    ensures Elements(ends) == EndSet(files) && Distinct(ends)
  {
    ends := [];
    for i := 0 to |files|
      invariant Elements(ends) == EndSet(files[..i]) && Distinct(ends)
    {
      var more := ends + [End(files[i], true), End(files[i], false)];
      ghost var seen := EndSet(files[..i]);
      assert End(files[i], true) !in seen && End(files[i], false) !in seen;
      assert Distinct(more) by {
        forall j | 0 <= j < |ends| ensures ends[j] in seen { assert ends[j] in Elements(ends); }
      }
      assert Elements(more) == Elements(ends) + {End(files[i], true), End(files[i], false)};
      assert files[..i + 1] == files[..i] + [files[i]];
      assert EndSet(files[..i + 1]) == seen + {End(files[i], true), End(files[i], false)};
      ends := more;
    }
    assert files[..|files|] == files;
  }

  lemma SortedEndsAreSwept<K(!new)>(lt: (K, K) -> bool, files: seq<BlobFileMeta<K>>, raw: seq<End<K>>, ends: seq<End<K>>)
    requires Elements(raw) == EndSet(files) && Distinct(raw)
    requires multiset(ends) == multiset(raw) && Sorted((a, b) => EndLess(lt, a, b), ends)
    ensures Swept(lt, files, ends)
  {
    SameElements(ends, raw);
    PermutedDistinct(ends, raw);
    forall i | 0 <= i < |ends| ensures ends[i].file in files {
      assert ends[i] in raw && ends[i] in Elements(raw);
    }
    forall f, s | f in files ensures End(f, s) in ends {
      assert End(f, s) in EndSet(files) && End(f, s) in Elements(raw);
    }
  }

  predicate Markable(s: FileState) {
    !s.Obsolete? && !s.ToMerge? && !s.ToGC?
  }

  /** The state the sweep leaves a file in. */
  ghost function Marked<K>(lt: (K, K) -> bool, files: seq<BlobFileMeta<K>>, maxRuns: int, f: BlobFileMeta<K>, before: FileState): FileState {
    if Markable(before) && |Crossing(lt, files, f)| > maxRuns then ToMerge else before
  }

  /** What passing end `i` does to the sets of files whose ends have passed. */
  ghost predicate StepFact<K>(lt: (K, K) -> bool, files: seq<BlobFileMeta<K>>, ends: seq<End<K>>, i: nat)
    requires i < |ends|
  {
    var f, started, ended := ends[i].file, Passed(files, ends[..i], true), Passed(files, ends[..i], false);
    && f in files
    && (if ends[i].isSmallest then
          && f !in started && Passed(files, ends[..i + 1], true) == started + {f} && Passed(files, ends[..i + 1], false) == ended
          && |ended| == |EndedBefore(lt, files, f)|
        else
          && f in started && f !in ended && Passed(files, ends[..i + 1], false) == ended + {f} && Passed(files, ends[..i + 1], true) == started
          && |started| - |EndedBefore(lt, files, f)| == |Crossing(lt, files, f)|)
  }

  ghost predicate SweepFacts<K>(lt: (K, K) -> bool, files: seq<BlobFileMeta<K>>, ends: seq<End<K>>) {
    && (forall i: nat :: i < |ends| ==> StepFact(lt, files, ends, i))
    && (forall f :: f in files ==> f in Passed(files, ends[..|ends|], false))
  }

  lemma SweptStep<K(!new)>(lt: (K, K) -> bool, files: seq<BlobFileMeta<K>>, ends: seq<End<K>>, i: nat)
    requires StrictTotal(lt) && Bounded(lt, files) && LoneKeysApart(files) && Swept(lt, files, ends) && i < |ends|
    ensures StepFact(lt, files, ends, i)
  {
    PassedStep(files, ends, i);
    if ends[i].isSmallest {
      AtSmallestEnd(lt, files, ends, i);
    } else {
      AtLargestEnd(lt, files, ends, i);
      CrossingCount(lt, files, ends[i].file);
    }
  }

  lemma SweptFacts<K(!new)>(lt: (K, K) -> bool, files: seq<BlobFileMeta<K>>, ends: seq<End<K>>)
    requires StrictTotal(lt) && Bounded(lt, files) && LoneKeysApart(files) && Swept(lt, files, ends)
    ensures SweepFacts(lt, files, ends)
  {
    forall i: nat | i < |ends| ensures StepFact(lt, files, ends, i) { SweptStep(lt, files, ends, i); }
    assert ends[..|ends|] == ends;
  }

  method Mark<K>(f: BlobFileMeta<K>, crossing: int, maxRuns: int)
    modifies f
    ensures f.state == if Markable(old(f.state)) && crossing > maxRuns then ToMerge else old(f.state)
  {
    if crossing > maxRuns && Markable(f.state) {
      f.FileStateTransit(NeedMerge);
    }
  }

  method Sweep<K(!new)>(lt: (K, K) -> bool, files: seq<BlobFileMeta<K>>, ends: seq<End<K>>, maxRuns: int)
    requires SweepFacts(lt, files, ends)
    modifies files
    ensures forall f :: f in files ==> f.state == Marked(lt, files, maxRuns, f, old(f.state))
  {
    var added, removed := 0, 0;
    var removedAt: map<BlobFileMeta<K>, int> := map[];
    ghost var started, ended := {}, {};
    for i := 0 to |ends|
      invariant started == Passed(files, ends[..i], true) && ended == Passed(files, ends[..i], false)
      invariant added == |started| && removed == |ended|
      invariant forall f :: f in started ==> f in removedAt && removedAt[f] == |EndedBefore(lt, files, f)|
      invariant forall f :: f in files ==>
        f.state == if f in ended then Marked(lt, files, maxRuns, f, old(f.state)) else old(f.state)
    {
      var f := ends[i].file;
      assert StepFact(lt, files, ends, i);
      if ends[i].isSmallest {
        removedAt := removedAt[f := removed];
        added, started := added + 1, started + {f};
      } else {
        removed, ended := removed + 1, ended + {f};
        if f in removedAt {
          Mark(f, added - removedAt[f], maxRuns);
        }
      }
    }
  }

  method MarkFileIfNeedMerge<K(==,!new)>(lt: (K, K) -> bool, files: seq<BlobFileMeta<K>>, maxRuns: int)
    requires StrictTotal(lt) && Distinct(files) && Bounded(lt, files) && LoneKeysApart(files)
    modifies files
    ensures forall f :: f in files ==>
      f.state == if Markable(old(f.state)) && |Crossing(lt, files, f)| > maxRuns then ToMerge else old(f.state)
  {
    var raw := ListEnds(files);
    LoneKeysApartSuffices(lt, files);
    var ends := Sort((a, b) => EndLess(lt, a, b), raw);
    SortedEndsAreSwept(lt, files, raw, ends);
    SweptFacts(lt, files, ends);
    Sweep(lt, files, ends, maxRuns);
  }
}
