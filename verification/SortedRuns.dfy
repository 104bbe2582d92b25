/** Blob file metadata as the interval algorithms see it. */
module BlobFiles {
  import opened FileStates

  class BlobFileMeta<K> {
    const smallest: K
    const largest: K
    var state: FileState

    constructor (smallest: K, largest: K)
      ensures this.smallest == smallest && this.largest == largest && state == Init
    {
      this.smallest, this.largest := smallest, largest;
      state := Init;
    }

    method FileStateTransit(e: FileEvent)
      modifies this`state
      ensures state == Transit(old(state), e)
    {
      state := Transit(state, e);
    }
  }

  /** No file's key range is upside down. */
  ghost predicate Bounded<K>(lt: (K, K) -> bool, files: seq<BlobFileMeta<K>>) {
    forall f :: f in files ==> !lt(f.largest, f.smallest)
  }
}

/** Splitting blob files into the fewest runs of disjoint key ranges. */
module SortedRuns {
  import opened Order
  import opened BlobFiles

  predicate Holds<K>(lt: (K, K) -> bool, f: BlobFileMeta<K>, key: K) {
    !lt(key, f.smallest) && !lt(f.largest, key)
  }

  predicate Apart<K>(lt: (K, K) -> bool, f: BlobFileMeta<K>, g: BlobFileMeta<K>) {
    lt(f.largest, g.smallest) || lt(g.largest, f.smallest)
  }

  predicate SmallestLess<K>(lt: (K, K) -> bool, f: BlobFileMeta<K>, g: BlobFileMeta<K>) {
    lt(f.smallest, g.smallest)
  }

  ghost predicate SortedBySmallest<K>(lt: (K, K) -> bool, fs: seq<BlobFileMeta<K>>) {
    forall i, j :: 0 <= i < j < |fs| ==> !lt(fs[j].smallest, fs[i].smallest)
  }

  /** The files, as positions in `fs`, whose closed key range holds `key`. */
  ghost function Overlap<K>(lt: (K, K) -> bool, fs: seq<BlobFileMeta<K>>, key: K): set<nat> {
    set i: nat | i < |fs| && Holds(lt, fs[i], key)
  }

  /** Some way to give each file one of `k` classes, files of one class having disjoint ranges. */
  ghost predicate Separates<K>(lt: (K, K) -> bool, fs: seq<BlobFileMeta<K>>, colour: seq<nat>, k: nat) {
    && |colour| == |fs|
    && (forall i :: 0 <= i < |fs| ==> colour[i] < k)
    && (forall i, j :: 0 <= i < j < |fs| && colour[i] == colour[j] ==> Apart(lt, fs[i], fs[j]))
  }

  /** Position `i` lies in run `home[i]`, once, and in no other run; runs list positions in order. */
  ghost predicate EachOnce(runs: seq<seq<nat>>, home: seq<nat>) {
    && (forall i :: 0 <= i < |home| ==> home[i] < |runs| && i in runs[home[i]])
    && (forall r, p :: 0 <= r < |runs| && 0 <= p < |runs[r]| ==> runs[r][p] < |home| && home[runs[r][p]] == r)
    && (forall r, p, q :: 0 <= r < |runs| && 0 <= p < q < |runs[r]| ==> runs[r][p] < runs[r][q])
  }

  /** Within each run, every range ends before the next begins. */
  ghost predicate Increasing<K>(lt: (K, K) -> bool, fs: seq<BlobFileMeta<K>>, runs: seq<seq<nat>>) {
    && (forall r, p :: 0 <= r < |runs| && 0 <= p < |runs[r]| ==> runs[r][p] < |fs|)
    && (forall r, p, q :: 0 <= r < |runs| && 0 <= p < q < |runs[r]| ==> lt(fs[runs[r][p]].largest, fs[runs[r][q]].smallest))
  }

  // Counting: no class can hold two ranges that share a key.

  lemma {:induction false} InjectiveBound(s: set<nat>, colour: seq<nat>, k: nat)
    requires forall i :: i in s ==> i < |colour| && colour[i] < k
    requires forall i, j :: i in s && j in s && colour[i] == colour[j] ==> i == j
    ensures |s| <= k
  {
    if i :| i in s && colour[i] == k - 1 {
      InjectiveBound(s - {i}, colour, k - 1);
    } else if k == 0 {
      assert s == {};
    } else {
      InjectiveBound(s, colour, k - 1);
    }
  }

  lemma SharersNeedClasses<K(!new)>(lt: (K, K) -> bool, fs: seq<BlobFileMeta<K>>, colour: seq<nat>, k: nat, key: K)
    requires StrictTotal(lt)
    requires Separates(lt, fs, colour, k)
    ensures |Overlap(lt, fs, key)| <= k
  {
    var s := Overlap(lt, fs, key);
    forall i, j | i in s && j in s && colour[i] == colour[j] ensures i == j {
      if i < j { NotApart(lt, fs[i], fs[j], key); }
      if j < i { NotApart(lt, fs[j], fs[i], key); }
    }
    InjectiveBound(s, colour, k);
  }

  lemma NotApart<K(!new)>(lt: (K, K) -> bool, f: BlobFileMeta<K>, g: BlobFileMeta<K>, key: K)
    requires StrictTotal(lt) && Holds(lt, f, key) && Holds(lt, g, key)
    ensures !Apart(lt, f, g)
  {
    if lt(f.largest, g.smallest) { LessThrough(lt, f, g, key); }
    if lt(g.largest, f.smallest) { LessThrough(lt, g, f, key); }
  }

  lemma LessThrough<K(!new)>(lt: (K, K) -> bool, f: BlobFileMeta<K>, g: BlobFileMeta<K>, key: K)
    requires StrictTotal(lt) && lt(f.largest, g.smallest)
    ensures !Holds(lt, f, key) || !Holds(lt, g, key)
  {
    if key == f.largest || lt(f.largest, key) {} else { assert lt(key, f.largest); }
  }

  // First fit: each file joins the first run whose last range ends before it begins.

  ghost predicate NonEmpty(runs: seq<seq<nat>>) {
    forall r :: 0 <= r < |runs| ==> runs[r] != []
  }

  ghost predicate Placed<K>(lt: (K, K) -> bool, fs: seq<BlobFileMeta<K>>, runs: seq<seq<nat>>, home: seq<nat>) {
    NonEmpty(runs) && EachOnce(runs, home) && |home| <= |fs| && Increasing(lt, fs, runs)
  }

  predicate Fits<K>(lt: (K, K) -> bool, fs: seq<BlobFileMeta<K>>, run: seq<nat>, f: BlobFileMeta<K>) {
    run != [] && run[|run| - 1] < |fs| && lt(fs[run[|run| - 1]].largest, f.smallest)
  }

  lemma ExtendKeepsEachOnce(runs: seq<seq<nat>>, home: seq<nat>, r: nat)
    requires EachOnce(runs, home) && r < |runs|
    ensures EachOnce(runs[r := runs[r] + [|home|]], home + [r])
  {
    var runs', home' := runs[r := runs[r] + [|home|]], home + [r];
    forall i | 0 <= i < |home'| ensures home'[i] < |runs'| && i in runs'[home'[i]] {
      if i == |home| { assert runs'[r][|runs[r]|] == i; } else if home[i] == r { assert i in runs[r]; }
    }
  }

  lemma OpenKeepsEachOnce(runs: seq<seq<nat>>, home: seq<nat>)
    requires EachOnce(runs, home)
    ensures EachOnce(runs + [[|home|]], home + [|runs|])
  {
    var runs', home' := runs + [[|home|]], home + [|runs|];
    assert runs'[|runs|][0] == |home|;
  }

  lemma ExtendKeepsIncreasing<K(!new)>(lt: (K, K) -> bool, fs: seq<BlobFileMeta<K>>, runs: seq<seq<nat>>, i: nat, r: nat)
    requires StrictTotal(lt) && Bounded(lt, fs) && Increasing(lt, fs, runs)
    requires i < |fs| && r < |runs| && Fits(lt, fs, runs[r], fs[i])
    ensures Increasing(lt, fs, runs[r := runs[r] + [i]])
  {
    var run, runs' := runs[r], runs[r := runs[r] + [i]];
    var last := run[|run| - 1];
    forall p | 0 <= p < |run| ensures lt(fs[run[p]].largest, fs[i].smallest) {
      if p < |run| - 1 {
        assert lt(fs[run[p]].largest, fs[last].smallest) && lt(fs[last].largest, fs[i].smallest);
        Through(lt, fs[run[p]].largest, fs[last], fs[i].smallest);
      }
    }
  }

  lemma Through<K(!new)>(lt: (K, K) -> bool, a: K, f: BlobFileMeta<K>, b: K)
    requires StrictTotal(lt) && !lt(f.largest, f.smallest)
    requires lt(a, f.smallest) && lt(f.largest, b)
    ensures lt(a, b)
  {
    assert lt(f.smallest, f.largest) || f.smallest == f.largest;
  }

  lemma {:induction false} DistinctCount(w: seq<nat>, s: set<nat>)
    requires forall i :: 0 <= i < |w| ==> w[i] in s
    requires forall i, j :: 0 <= i < j < |w| ==> w[i] != w[j]
    ensures |w| <= |s|
  {
    if w != [] {
      var n := |w| - 1;
      DistinctCount(w[..n], s - {w[n]});
    }
  }

  /** If a file fits no run, its smallest key lies in the last range of every run. */
  lemma MisfitsShareAKey<K(!new)>(lt: (K, K) -> bool, fs: seq<BlobFileMeta<K>>, runs: seq<seq<nat>>, home: seq<nat>)
    requires StrictTotal(lt) && Bounded(lt, fs) && SortedBySmallest(lt, fs)
    requires NonEmpty(runs) && EachOnce(runs, home) && |home| < |fs|
    requires forall r :: 0 <= r < |runs| ==> !Fits(lt, fs, runs[r], fs[|home|])
    ensures |Overlap(lt, fs, fs[|home|].smallest)| > |runs|
  {
    var i := |home|;
    var s := Overlap(lt, fs, fs[i].smallest);
    var w := seq(|runs| + 1, r requires 0 <= r <= |runs| => if r < |runs| then runs[r][|runs[r]| - 1] else i);
    forall r | 0 <= r < |w| ensures w[r] in s {
      if r < |runs| { assert w[r] < i && home[w[r]] == r; }
    }
    forall r, q | 0 <= r < q < |w| ensures w[r] != w[q] {
      assert w[r] < i && home[w[r]] == r;
      if q < |runs| { assert home[w[q]] == q; }
    }
    DistinctCount(w, s);
  }

  method FirstFitting<K>(lt: (K, K) -> bool, fs: seq<BlobFileMeta<K>>, runs: seq<seq<nat>>, f: BlobFileMeta<K>)
    returns (r: nat)
    ensures r <= |runs|
    ensures r < |runs| ==> Fits(lt, fs, runs[r], f)
    ensures forall q :: 0 <= q < r ==> !Fits(lt, fs, runs[q], f)
  {
    r := 0;
    while r < |runs| && !Fits(lt, fs, runs[r], f)
      invariant r <= |runs|
      invariant forall q :: 0 <= q < r ==> !Fits(lt, fs, runs[q], f)
    {
      r := r + 1;
    }
  }

  lemma PlacedSeparates<K(!new)>(lt: (K, K) -> bool, fs: seq<BlobFileMeta<K>>, runs: seq<seq<nat>>, home: seq<nat>)
    requires Placed(lt, fs, runs, home) && |home| == |fs|
    ensures Separates(lt, fs, home, |runs|)
  {
    forall i, j | 0 <= i < j < |fs| && home[i] == home[j] ensures Apart(lt, fs[i], fs[j]) {
      var run := runs[home[i]];
      var p :| 0 <= p < |run| && run[p] == i;
      var q :| 0 <= q < |run| && run[q] == j;
      if p < q {} else if q < p {}
    }
  }

  /** The deepest stack of ranges sharing a key. */
  ghost predicate Depth<K(!new)>(lt: (K, K) -> bool, fs: seq<BlobFileMeta<K>>, k: nat) {
    && (forall key :: |Overlap(lt, fs, key)| <= k)
    && (k > 0 ==> exists key :: |Overlap(lt, fs, key)| == k)
  }

  method FirstFit<K(!new)>(lt: (K, K) -> bool, fs: seq<BlobFileMeta<K>>)
    returns (runs: seq<seq<nat>>, ghost home: seq<nat>)
    requires StrictTotal(lt) && Bounded(lt, fs) && SortedBySmallest(lt, fs)
    ensures |home| == |fs| && EachOnce(runs, home)
    ensures Increasing(lt, fs, runs)
    ensures Depth(lt, fs, |runs|)
    ensures forall colour, k: nat :: Separates(lt, fs, colour, k) ==> |runs| <= k
  {
    runs, home := [], [];
    ghost var deepest: seq<K> := [];
    for i := 0 to |fs|
      invariant |home| == i && Placed(lt, fs, runs, home)
      invariant runs == [] || (|deepest| == 1 && |Overlap(lt, fs, deepest[0])| >= |runs|)
    {
      var r := FirstFitting(lt, fs, runs, fs[i]);
      if r < |runs| {
        ExtendKeepsEachOnce(runs, home, r);
        ExtendKeepsIncreasing(lt, fs, runs, i, r);
        runs, home := runs[r := runs[r] + [i]], home + [r];
      } else {
        MisfitsShareAKey(lt, fs, runs, home);
        OpenKeepsEachOnce(runs, home);
        runs, home := runs + [[i]], home + [|runs|];
        deepest := [fs[i].smallest];
      }
    }
    FewestRuns(lt, fs, runs, home, deepest);
  }

  lemma FewestRuns<K(!new)>(lt: (K, K) -> bool, fs: seq<BlobFileMeta<K>>, runs: seq<seq<nat>>, home: seq<nat>, deepest: seq<K>)
    requires StrictTotal(lt) && Placed(lt, fs, runs, home) && |home| == |fs|
    requires runs == [] || (|deepest| == 1 && |Overlap(lt, fs, deepest[0])| >= |runs|)
    ensures Depth(lt, fs, |runs|)
    ensures forall colour, k: nat :: Separates(lt, fs, colour, k) ==> |runs| <= k
  {
    PlacedSeparates(lt, fs, runs, home);
    forall key ensures |Overlap(lt, fs, key)| <= |runs| { SharersNeedClasses(lt, fs, home, |runs|, key); }
    forall colour, k: nat | Separates(lt, fs, colour, k) ensures |runs| <= k {
      if runs != [] { SharersNeedClasses(lt, fs, colour, k, deepest[0]); }
    }
  }

  /** Sorts `files` in place by smallest key and reports how many files each run holds. */
  method CountSortedRun<K(!new)>(lt: (K, K) -> bool, files: array<BlobFileMeta<K>>)
    returns (sizes: seq<nat>, ghost runs: seq<seq<nat>>, ghost home: seq<nat>)
    requires StrictTotal(lt) && Bounded(lt, files[..])
    modifies files
    ensures Permutes(files[..], old(files[..])) && SortedBySmallest(lt, files[..])
    ensures |sizes| == |runs| && forall r :: 0 <= r < |runs| ==> sizes[r] == |runs[r]|
    ensures |home| == files.Length && EachOnce(runs, home)
    ensures Increasing(lt, files[..], runs)
    ensures Depth(lt, files[..], |runs|)
    ensures forall colour, k: nat :: Separates(lt, files[..], colour, k) ==> |runs| <= k
  {
    SmallestLessIsStrictWeak(lt, Elements(files[..]));
    var sorted := Sort((f, g) => SmallestLess(lt, f, g), files[..]);
    SortedFiles(lt, files[..], sorted);
    forall i | 0 <= i < files.Length { files[i] := sorted[i]; }
    assert files[..] == sorted;
    var lists;
    lists, home := FirstFit(lt, sorted);
    runs := lists;
    sizes := seq(|lists|, r requires 0 <= r < |lists| => |lists[r]|);
  }

  lemma SmallestLessIsStrictWeak<K(!new)>(lt: (K, K) -> bool, s: set<BlobFileMeta<K>>)
    requires StrictTotal(lt)
    ensures StrictWeakAmong((f, g) => SmallestLess(lt, f, g), s)
  {
    var less := (f, g) => SmallestLess(lt, f, g);
    forall a, b, c | a in s && b in s && c in s && Same(less, a, b) && Same(less, b, c) ensures Same(less, a, c) {
      assert a.smallest == b.smallest == c.smallest;
    }
  }

  lemma SortedFiles<K(!new)>(lt: (K, K) -> bool, fs: seq<BlobFileMeta<K>>, sorted: seq<BlobFileMeta<K>>)
    requires StrictTotal(lt) && Bounded(lt, fs)
    requires multiset(sorted) == multiset(fs) && Sorted((f, g) => SmallestLess(lt, f, g), sorted)
    ensures |sorted| == |fs| && Bounded(lt, sorted) && SortedBySmallest(lt, sorted)
  {
    assert |multiset(sorted)| == |sorted| && |multiset(fs)| == |fs|;
    SameElements(sorted, fs);
    forall i | 0 <= i < |sorted| ensures !lt(sorted[i].largest, sorted[i].smallest) {
      assert sorted[i] in fs;
    }
    var less := (f, g) => SmallestLess(lt, f, g);
    forall i, j | 0 <= i < j < |sorted| ensures !lt(sorted[j].smallest, sorted[i].smallest) {
      if sorted[i] != sorted[j] { assert !less(sorted[j], sorted[i]); }
    }
  }
}
