/** The table property that carries referenced bytes per blob file, as bytes. */
module SizeProperty {
  import opened Order
  import opened Coding

  datatype SizeEntry = SizeEntry(file: nat, size: nat)

  function EncodedEntries(es: seq<SizeEntry>): Bytes {
    if es == [] then [] else Varint(es[0].file) + (Varint(es[0].size) + EncodedEntries(es[1..]))
  }

  function EncodedSizes(es: seq<SizeEntry>): Bytes {
    Varint(|es| % U32) + EncodedEntries(es)
  }

  function DecodedEntries(n: nat, src: Bytes, m: map<nat, nat>): Option<map<nat, nat>> {
    if n == 0 then Some(m) else
    var file := GetVarint64(src);
    if file.None? then None else
    var size := GetVarint64(file.value.rest);
    if size.None? then None else
    DecodedEntries(n - 1, size.value.rest, m[file.value.value := size.value.value])
  }

  function DecodedSizes(src: Bytes): Option<map<nat, nat>> {
    var n := GetVarint32(src);
    if n.None? then None else DecodedEntries(n.value.value, n.value.rest, map[])
  }

  method Encode(es: seq<SizeEntry>) returns (dst: Bytes)
    ensures dst == EncodedSizes(es)
  {
    dst := Varint(|es| % U32);
    var start := dst;
    for i := 0 to |es|
      invariant dst + EncodedEntries(es[i..]) == start + EncodedEntries(es)
    {
      assert es[i..][1..] == es[i + 1..];
      dst := dst + Varint(es[i].file) + Varint(es[i].size);
    }
    assert EncodedEntries(es[|es|..]) == [];
  }

  method DecodeEntries(n: nat, start: Bytes) returns (r: Option<map<nat, nat>>)
    ensures r == DecodedEntries(n, start, map[])
  {
    var src := start;
    var m: map<nat, nat> := map[];
    for i := 0 to n
      invariant DecodedEntries(n - i, src, m) == DecodedEntries(n, start, map[])
    {
      var file := GetVarint64(src);
      if file.None? { return None; }
      var size := GetVarint64(file.value.rest);
      if size.None? { return None; }
      src, m := size.value.rest, m[file.value.value := size.value.value];
    }
    return Some(m);
  }

  method Decode(record: Bytes) returns (r: Option<map<nat, nat>>)
    ensures r == DecodedSizes(record)
  {
    var count := GetVarint32(record);
    if count.None? { return None; }
    r := DecodeEntries(count.value.value, count.value.rest);
  }

  function WithEntries(m: map<nat, nat>, es: seq<SizeEntry>): map<nat, nat>
    decreases |es|
  {
    if es == [] then m else WithEntries(m[es[0].file := es[0].size], es[1..])
  }

  ghost predicate EntriesFit(es: seq<SizeEntry>) {
    forall i :: 0 <= i < |es| ==> es[i].file < U64 && es[i].size < U64
  }

  lemma {:induction false} EntriesRoundTrip(es: seq<SizeEntry>, m: map<nat, nat>)
    requires EntriesFit(es)
    ensures DecodedEntries(|es|, EncodedEntries(es), m) == Some(WithEntries(m, es))
  {
    if es != [] {
      var rest := EncodedEntries(es[1..]);
      Varint64RoundTrip(es[0].file, Varint(es[0].size) + rest);
      Varint64RoundTrip(es[0].size, rest);
      EntriesRoundTrip(es[1..], m[es[0].file := es[0].size]);
    }
  }

  /** `es` lists the entries of `m` in increasing order of file numbers. */
  ghost predicate ListsSizes(es: seq<SizeEntry>, m: map<nat, nat>) {
    && (forall i :: 0 <= i < |es| ==> es[i].file in m && m[es[i].file] == es[i].size)
    && (forall f :: f in m ==> SizeEntry(f, m[f]) in es)
    && (forall i, j :: 0 <= i < j < |es| ==> es[i].file < es[j].file)
  }

  lemma {:induction false} EntriesRebuild(start: map<nat, nat>, es: seq<SizeEntry>, m: map<nat, nat>)
    requires forall i :: 0 <= i < |es| ==> es[i].file in m && m[es[i].file] == es[i].size
    requires forall f :: f in start ==> f in m && start[f] == m[f]
    requires forall f :: f in m ==> f in start || SizeEntry(f, m[f]) in es
    ensures WithEntries(start, es) == m
    decreases |es|
  {
    if es != [] {
      var next := start[es[0].file := es[0].size];
      forall f | f in m && f !in next ensures SizeEntry(f, m[f]) in es[1..] {
        var i :| 0 <= i < |es| && es[i] == SizeEntry(f, m[f]);
        assert es[1..][i - 1] == es[i];
      }
      EntriesRebuild(next, es[1..], m);
    }
  }

  /** A property that was written reads back as the same table of sizes. */
  lemma SizesRoundTrip(es: seq<SizeEntry>, m: map<nat, nat>)
    requires EntriesFit(es) && ListsSizes(es, m) && |es| < U32
    ensures DecodedSizes(EncodedSizes(es)) == Some(m)
  {
    var bytes, n := EncodedEntries(es), |es|;
    assert DecodedEntries(n, bytes, map[]) == Some(m) by {
      EntriesRoundTrip(es, map[]);
      EntriesRebuild(map[], es, m);
    }
    SmallMod(n, U32);
    Varint32RoundTrip(n, bytes);
  }

  /** Walks an ordered table. */
  method ListSizes(m: map<nat, nat>) returns (es: seq<SizeEntry>)
    ensures ListsSizes(es, m) && |es| == |m|
  {
    es := [];
    var todo := m.Keys;
    while todo != {}
      invariant todo <= m.Keys && |es| + |todo| == |m.Keys|
      invariant forall i :: 0 <= i < |es| ==> es[i].file in m && m[es[i].file] == es[i].size && es[i].file !in todo
      invariant forall i, f :: 0 <= i < |es| && f in todo ==> es[i].file < f
      invariant forall f :: f in m && f !in todo ==> SizeEntry(f, m[f]) in es
      invariant forall i, j :: 0 <= i < j < |es| ==> es[i].file < es[j].file
      decreases todo
    {
      var f := Least(todo);
      es := es + [SizeEntry(f, m[f])];
      todo := todo - {f};
    }
  }

  method Least(s: set<nat>) returns (least: nat)
    requires s != {}
    ensures least in s && forall x :: x in s ==> least <= x
  {
    least :| least in s;
    var todo := s - {least};
    while todo != {}
      invariant todo <= s && least in s
      invariant forall x :: x in s && x !in todo ==> least <= x
      decreases todo
    {
      var x :| x in todo;
      todo := todo - {x};
      if x < least { least := x; }
    }
  }
}
