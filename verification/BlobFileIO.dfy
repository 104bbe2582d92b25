/** Byte strings laid end to end. */
module Layout {
  import opened Order

  function Joined(fs: seq<Bytes>): Bytes {
    if fs == [] then [] else Joined(fs[..|fs| - 1]) + fs[|fs| - 1]
  }

  function Start(fs: seq<Bytes>, k: nat): nat
    requires k <= |fs|
  {
    |Joined(fs[..k])|
  }

  lemma StartStep(fs: seq<Bytes>, k: nat)
    requires k < |fs|
    ensures Start(fs, k + 1) == Start(fs, k) + |fs[k]|
  {
    assert fs[..k + 1][..k] == fs[..k];
  }

  lemma {:induction false} StartsIncrease(fs: seq<Bytes>, least: nat, j: nat, k: nat)
    requires j < k <= |fs| && forall i :: 0 <= i < |fs| ==> |fs[i]| >= least
    ensures Start(fs, j) + least <= Start(fs, k)
    decreases k - j
  {
    StartStep(fs, k - 1);
    if j < k - 1 { StartsIncrease(fs, least, j, k - 1); }
  }

  lemma {:induction false} JoinedSlice(fs: seq<Bytes>, k: nat)
    requires k < |fs|
    ensures Start(fs, k) + |fs[k]| <= |Joined(fs)| && Joined(fs)[Start(fs, k)..Start(fs, k) + |fs[k]|] == fs[k]
    decreases |fs|
  {
    var n := |fs| - 1;
    if k < n {
      JoinedSlice(fs[..n], k);
      assert fs[..n][..k] == fs[..k];
    }
  }

  lemma SliceBetween(before: Bytes, mid: Bytes, after: Bytes, o: nat, m: nat)
    requires o + m <= |mid|
    ensures (before + mid + after)[|before| + o..|before| + o + m] == mid[o..o + m]
  {
  }
}

/** Writing, iterating over and reading one blob file. */
module BlobFileIO {
  import opened Order
  import opened Coding
  import opened BlobFormat
  import opened Layout

  // Layout of a file.

  function Frames(a: Algorithms, rs: seq<Record>, onlyValue: bool): (fs: seq<Bytes>)
    ensures |fs| == |rs| && forall i :: 0 <= i < |rs| ==> |fs[i]| >= RECORD_HEADER_SIZE
  {
    seq(|rs|, i requires 0 <= i < |rs| => Framed(a, rs[i], onlyValue))
  }

  function FileOf(a: Algorithms, fs: seq<Bytes>): Bytes {
    Header() + Joined(fs) + Footer(a)
  }

  function FileBytes(a: Algorithms, rs: seq<Record>, onlyValue: bool): Bytes {
    FileOf(a, Frames(a, rs, onlyValue))
  }

  /** A file before its footer. */
  function Unfinished(a: Algorithms, rs: seq<Record>, onlyValue: bool): Bytes {
    Header() + Joined(Frames(a, rs, onlyValue))
  }

  /** Where frame `k` starts; the position of the footer for `k == |fs|`. */
  function Offset(fs: seq<Bytes>, k: nat): nat
    requires k <= |fs|
  {
    HEADER_SIZE + Start(fs, k)
  }

  function HandleOf(fs: seq<Bytes>, k: nat): Handle
    requires k < |fs|
  {
    Handle(Offset(fs, k), |fs[k]|)
  }

  /** The blob index of record `k` of a file. */
  function IndexOf(a: Algorithms, rs: seq<Record>, number: nat, k: nat): Index
    requires k < |rs|
  {
    var h := HandleOf(Frames(a, rs, false), k);
    Index(number, h.offset, h.size)
  }

  ghost predicate AllStorable(a: Algorithms, rs: seq<Record>, onlyValue: bool) {
    forall i :: 0 <= i < |rs| ==> Storable(a, rs[i], onlyValue)
  }

  /** The bytes of record `k` lie at its handle. */
  lemma FrameBytes(a: Algorithms, fs: seq<Bytes>, k: nat)
    requires k < |fs|
    ensures var f, h := FileOf(a, fs), HandleOf(fs, k);
      h.offset + h.size <= |f| - FOOTER_SIZE && f[h.offset..h.offset + h.size] == fs[k]
  {
    JoinedSlice(fs, k);
    SliceBetween(Header(), Joined(fs), Footer(a), Start(fs, k), |fs[k]|);
  }

  lemma FileEnds(a: Algorithms, fs: seq<Bytes>)
    ensures var f := FileOf(a, fs);
      && |f| >= HEADER_SIZE + FOOTER_SIZE
      && f[..HEADER_SIZE] == Header() && f[|f| - FOOTER_SIZE..] == Footer(a)
      && |f| - FOOTER_SIZE == Offset(fs, |fs|)
  {
    assert fs[..|fs|] == fs;
  }

  // The builder.

  /** The key that the comparator puts first, or last. */
  ghost predicate IsBound(lt: (Bytes, Bytes) -> bool, rs: seq<Record>, key: Bytes, first: bool) {
    && (exists i :: 0 <= i < |rs| && rs[i].key == key)
    && (forall i :: 0 <= i < |rs| ==> if first then !lt(rs[i].key, key) else !lt(key, rs[i].key))
  }

  /** The key range after one more key: an empty smallest key counts as no range yet. */
  function Widened(lt: (Bytes, Bytes) -> bool, range: (Bytes, Bytes), key: Bytes): (Bytes, Bytes) {
    var (s, l) := if range.0 == [] then (key, key) else range;
    if lt(l, key) then (s, key) else if lt(key, s) then (key, l) else (s, l)
  }

  function KeyRange(lt: (Bytes, Bytes) -> bool, rs: seq<Record>): (Bytes, Bytes) {
    if rs == [] then ([], []) else Widened(lt, KeyRange(lt, rs[..|rs| - 1]), rs[|rs| - 1].key)
  }

  ghost predicate RangeIsBound(lt: (Bytes, Bytes) -> bool, rs: seq<Record>, range: (Bytes, Bytes)) {
    IsBound(lt, rs, range.0, true) && IsBound(lt, rs, range.1, false)
  }

  /** Only the last record may have an empty key. */
  ghost predicate Keyed(rs: seq<Record>) {
    forall i :: 0 <= i < |rs| - 1 ==> rs[i].key != []
  }

  /** For a proper comparator, the range holds the least and the greatest key. */
  ghost predicate BoundIfKeyed(lt: (Bytes, Bytes) -> bool, rs: seq<Record>, range: (Bytes, Bytes)) {
    StrictTotal(lt) && rs != [] && Keyed(rs) ==> RangeIsBound(lt, rs, range)
  }

  class BlobFileBuilder {
    const a: Algorithms
    const lt: (Bytes, Bytes) -> bool
    const onlyValue: bool
    var ok: bool
    var file: Bytes
    var entries: nat
    var smallest: Bytes
    var largest: Bytes
    ghost var records: seq<Record>

    ghost predicate Laid()
      reads this
    {
      file == Unfinished(a, records, onlyValue) && entries == |records|
    }

    /** Nothing is known of the file once a write has failed. */
    ghost predicate Valid()
      reads this
    {
      ok ==> Laid() && (smallest, largest) == KeyRange(lt, records)
    }

    constructor (a: Algorithms, lt: (Bytes, Bytes) -> bool, onlyValue: bool, appended: bool)
      ensures Valid() && ok == appended && records == [] && this.a == a && this.lt == lt && this.onlyValue == onlyValue
    {
      this.a, this.lt, this.onlyValue, ok := a, lt, onlyValue, appended;
      file, entries, smallest, largest, records := Header(), 0, [], [], [];
    }

    /** `appended` says whether the write succeeds. */
    method Add(r: Record, appended: bool) returns (handle: Handle)
      requires Valid()
      modifies this
      ensures Valid() && ok == (old(ok) && appended)
      ensures records == if ok then old(records) + [r] else old(records)
      ensures ok ==> handle == HandleOf(Frames(a, records, onlyValue), |records| - 1)
      ensures ok ==> BoundIfKeyed(lt, records, (smallest, largest))
    {
      handle := Handle(0, 0);
      if !ok { return; }
      if !appended {
        ok := false;
        return;
      }
      handle := Put(r);
      KeyRangeIsBoundIfKeyed(lt, records);
    }

    method Put(r: Record) returns (handle: Handle)
      requires ok && Valid()
      modifies `file, `entries, `records, `smallest, `largest
      ensures Valid() && records == old(records) + [r]
      ensures handle == HandleOf(Frames(a, records, onlyValue), |records| - 1)
    {
      handle := Append(r);
      assert records[..|records| - 1] == old(records);
      Widen(r.key);
    }

    method Append(r: Record) returns (handle: Handle)
      requires Laid()
      modifies `file, `entries, `records
      ensures Laid() && records == old(records) + [r]
      ensures handle == HandleOf(Frames(a, records, onlyValue), |records| - 1)
    {
      var framed := Framed(a, r, onlyValue);
      handle := Handle(|file|, |framed|);
      file := file + framed;
      entries := entries + 1;
      UnfinishedMore(a, records, r, onlyValue);
      records := records + [r];
    }

    method Widen(key: Bytes)
      modifies `smallest, `largest
      ensures (smallest, largest) == Widened(lt, old((smallest, largest)), key)
    {
      if smallest == [] {
        smallest, largest := key, key;
      }
      if lt(largest, key) {
        largest := key;
      } else if lt(key, smallest) {
        smallest := key;
      }
    }

    /** A success means the file is complete. */
    method Finish(appended: bool, flushed: bool)
      requires Valid()
      modifies `file, `ok
      ensures ok == (old(ok) && appended && flushed)
      ensures ok ==> file == FileBytes(a, records, onlyValue)
    {
      if !ok { return; }
      file := file + Footer(a);
      ok := appended && flushed;
    }
  }

  lemma {:induction false} KeyRangeIsBound(lt: (Bytes, Bytes) -> bool, rs: seq<Record>)
    requires StrictTotal(lt) && rs != [] && Keyed(rs)
    ensures RangeIsBound(lt, rs, KeyRange(lt, rs))
    decreases |rs|
  {
    var n := |rs| - 1;
    if n > 0 { KeyRangeIsBound(lt, rs[..n]); }
    assert rs == rs[..n] + [rs[n]];
    WidenKeepsBounds(lt, rs[..n], rs[n], KeyRange(lt, rs[..n]));
  }

  lemma KeyRangeIsBoundIfKeyed(lt: (Bytes, Bytes) -> bool, rs: seq<Record>)
    ensures BoundIfKeyed(lt, rs, KeyRange(lt, rs))
  {
    if StrictTotal(lt) && rs != [] && Keyed(rs) { KeyRangeIsBound(lt, rs); }
  }

  lemma WidenKeepsBounds(lt: (Bytes, Bytes) -> bool, rs: seq<Record>, r: Record, range: (Bytes, Bytes))
    requires StrictTotal(lt)
    requires if rs == [] then range.0 == [] else RangeIsBound(lt, rs, range) && range.0 != []
    ensures RangeIsBound(lt, rs + [r], Widened(lt, range, r.key))
  {
    if rs == [] { BoundsWiden(lt, rs, r, r.key, r.key); } else { BoundsWiden(lt, rs, r, range.0, range.1); }
  }

  /**
   * A right key range stays right exactly when its smallest key is not empty, or all keys are: after an
   * empty key the next one starts the range anew.
   */
  lemma WidenKeepsBoundsIff(lt: (Bytes, Bytes) -> bool, rs: seq<Record>, r: Record, range: (Bytes, Bytes))
    requires StrictTotal(lt) && rs != [] && RangeIsBound(lt, rs, range)
    ensures RangeIsBound(lt, rs + [r], Widened(lt, range, r.key)) <==> range.0 != [] || (range.1 == [] && r.key == [])
  {
    if range.0 != [] {
      WidenKeepsBounds(lt, rs, r, range);
    } else {
      assert Widened(lt, range, r.key) == (r.key, r.key);
      OneKeyIsBound(lt, rs, r, range);
    }
  }

  lemma OneKeyIsBound(lt: (Bytes, Bytes) -> bool, rs: seq<Record>, r: Record, range: (Bytes, Bytes))
    requires StrictTotal(lt) && rs != [] && RangeIsBound(lt, rs, range)
    ensures RangeIsBound(lt, rs + [r], (r.key, r.key)) <==> range.0 == range.1 == r.key
  {
    var more := rs + [r];
    assert more[|rs|] == r;
    assert forall i :: 0 <= i < |rs| ==> more[i] == rs[i];
    var i :| 0 <= i < |rs| && rs[i].key == range.0;
    var j :| 0 <= j < |rs| && rs[j].key == range.1;
    if RangeIsBound(lt, more, (r.key, r.key)) {
      assert !lt(more[i].key, r.key) && !lt(r.key, more[i].key);
      assert !lt(more[j].key, r.key) && !lt(r.key, more[j].key);
    }
  }

  /** Where the key range was last started anew. */
  function Restart(lt: (Bytes, Bytes) -> bool, rs: seq<Record>): (r: nat)
    requires rs != []
    ensures r < |rs|
  {
    var n := |rs| - 1;
    if KeyRange(lt, rs[..n]).0 == [] then n else Restart(lt, rs[..n])
  }

  lemma {:induction false} RangeSinceRestart(lt: (Bytes, Bytes) -> bool, rs: seq<Record>)
    requires StrictTotal(lt) && rs != []
    ensures RangeIsBound(lt, rs[Restart(lt, rs)..], KeyRange(lt, rs))
    decreases |rs|
  {
    var n := |rs| - 1;
    var range, r := KeyRange(lt, rs[..n]), Restart(lt, rs);
    if range.0 == [] {
      assert rs[n..] == [] + [rs[n]];
      WidenKeepsBounds(lt, [], rs[n], range);
    } else {
      RangeSinceRestart(lt, rs[..n]);
      assert rs[r..] == rs[..n][r..] + [rs[n]];
      WidenKeepsBounds(lt, rs[..n][r..], rs[n], range);
    }
  }

  ghost predicate KeysWithin(lt: (Bytes, Bytes) -> bool, rs: seq<Record>, range: (Bytes, Bytes)) {
    NoneBeyond(lt, rs, range.0, true) && NoneBeyond(lt, rs, range.1, false)
  }

  /** No key lies before `key`, or after it. */
  ghost predicate NoneBeyond(lt: (Bytes, Bytes) -> bool, rs: seq<Record>, key: Bytes, first: bool) {
    forall i :: 0 <= i < |rs| ==> if first then !lt(rs[i].key, key) else !lt(key, rs[i].key)
  }

  lemma NoneBeyondJoins(lt: (Bytes, Bytes) -> bool, a: seq<Record>, b: seq<Record>, key: Bytes, first: bool)
    ensures NoneBeyond(lt, a + b, key, first) <==> NoneBeyond(lt, a, key, first) && NoneBeyond(lt, b, key, first)
  {
    assert forall i :: 0 <= i < |a| ==> (a + b)[i] == a[i];
    assert forall i :: 0 <= i < |b| ==> (a + b)[|a| + i] == b[i];
  }

  lemma BoundJoins(lt: (Bytes, Bytes) -> bool, before: seq<Record>, rest: seq<Record>, key: Bytes, first: bool)
    requires IsBound(lt, rest, key, first)
    ensures IsBound(lt, before + rest, key, first) <==> NoneBeyond(lt, before, key, first)
  {
    NoneBeyondJoins(lt, before, rest, key, first);
    var i :| 0 <= i < |rest| && rest[i].key == key;
    assert (before + rest)[|before| + i].key == key;
    assert NoneBeyond(lt, rest, key, first);
  }

  lemma RangeJoins(lt: (Bytes, Bytes) -> bool, before: seq<Record>, rest: seq<Record>, range: (Bytes, Bytes))
    requires RangeIsBound(lt, rest, range)
    ensures RangeIsBound(lt, before + rest, range) <==> KeysWithin(lt, before, range)
  {
    BoundJoins(lt, before, rest, range.0, true);
    BoundJoins(lt, before, rest, range.1, false);
  }

  /** The key range of any list of records is that of the records since its last restart, and right exactly if the earlier keys lie within it. */
  lemma KeyRangeIsRightIff(lt: (Bytes, Bytes) -> bool, rs: seq<Record>)
    requires StrictTotal(lt) && rs != []
    ensures RangeIsBound(lt, rs[Restart(lt, rs)..], KeyRange(lt, rs))
    ensures RangeIsBound(lt, rs, KeyRange(lt, rs)) <==> KeysWithin(lt, rs[..Restart(lt, rs)], KeyRange(lt, rs))
  {
    var r := Restart(lt, rs);
    RangeSinceRestart(lt, rs);
    RangeJoins(lt, rs[..r], rs[r..], KeyRange(lt, rs));
    assert rs == rs[..r] + rs[r..];
  }

  /** Keys "" and `key`, in their order: the range forgets the first. */
  lemma EmptyKeyIsForgotten(key: Bytes, value: Bytes)
    requires key != []
    ensures var rs := [Record([], value), Record(key, value)];
      KeyRange(BytesLess, rs) == (key, key) && !RangeIsBound(BytesLess, rs, (key, key))
  {
    var rs := [Record([], value), Record(key, value)];
    assert rs[..1] == [rs[0]] && rs[..1][..0] == [];
    assert KeyRange(BytesLess, rs[..1]) == ([], []);
    BytesIrreflexive(key);
    assert BytesLess(rs[0].key, key);
  }

  lemma FramesMore(a: Algorithms, rs: seq<Record>, r: Record, onlyValue: bool)
    ensures var fs := Frames(a, rs, onlyValue);
      && Frames(a, rs + [r], onlyValue) == fs + [Framed(a, r, onlyValue)]
      && Joined(fs + [Framed(a, r, onlyValue)]) == Joined(fs) + Framed(a, r, onlyValue)
      && Start(fs + [Framed(a, r, onlyValue)], |fs|) == |Joined(fs)|
  {
    var fs, f := Frames(a, rs, onlyValue), Framed(a, r, onlyValue);
    assert (fs + [f])[..|fs|] == fs;
    assert Frames(a, rs + [r], onlyValue) == fs + [f];
  }

  lemma UnfinishedMore(a: Algorithms, rs: seq<Record>, r: Record, onlyValue: bool)
    ensures Unfinished(a, rs, onlyValue) + Framed(a, r, onlyValue) == Unfinished(a, rs + [r], onlyValue)
    ensures HandleOf(Frames(a, rs + [r], onlyValue), |rs|) == Handle(|Unfinished(a, rs, onlyValue)|, |Framed(a, r, onlyValue)|)
  {
    var h, fs, f := Header(), Frames(a, rs, onlyValue), Framed(a, r, onlyValue);
    FramesMore(a, rs, r, onlyValue);
    assert h + Joined(fs) + f == h + (Joined(fs) + f);
  }

  lemma BoundsWiden(lt: (Bytes, Bytes) -> bool, rs: seq<Record>, r: Record, s: Bytes, l: Bytes)
    requires StrictTotal(lt)
    requires if rs == [] then s == l == r.key else IsBound(lt, rs, s, true) && IsBound(lt, rs, l, false)
    ensures IsBound(lt, rs + [r], if lt(r.key, s) then r.key else s, true)
    ensures IsBound(lt, rs + [r], if lt(l, r.key) then r.key else l, false)
    ensures !(lt(l, r.key) && lt(r.key, s))
  {
    var more := rs + [r];
    assert more[|rs|] == r;
    assert forall i :: 0 <= i < |rs| ==> more[i] == rs[i];
    if rs != [] {
      var i :| 0 <= i < |rs| && rs[i].key == s;
      var j :| 0 <= j < |rs| && rs[j].key == l;
      assert more[i].key == s && more[j].key == l;
    }
  }

  // The iterator.

  /** A read that may come back short at the end of the file. */
  function ReadAt(file: Bytes, offset: nat, size: nat): Bytes {
    if offset >= |file| then [] else if offset + size <= |file| then file[offset..offset + size] else file[offset..]
  }

  datatype Found = Found(record: Record, size: nat)

  /** The record framed at `offset`, if one can be read there. */
  function FindRecord(a: Algorithms, file: Bytes, offset: nat): Option<Found> {
    var h := DecodedHeader(ReadAt(file, offset, RECORD_HEADER_SIZE));
    if h.None? then None else
    var body := ReadAt(file, offset + RECORD_HEADER_SIZE, h.value.size);
    var r := DecodedBody(a, h.value, body, false);
    if r.None? then None else Some(Found(r.value, RECORD_HEADER_SIZE + h.value.size))
  }

  /** A finished file of non-empty records with keys. */
  ghost predicate Holds(a: Algorithms, file: Bytes, rs: seq<Record>) {
    file == FileBytes(a, rs, false) && rs != [] && Sound(a) && AllStorable(a, rs, false)
  }

  lemma FrameHeaderAt(a: Algorithms, fs: seq<Bytes>, k: nat)
    requires k < |fs| && |fs[k]| >= RECORD_HEADER_SIZE
    ensures var f, o := FileOf(a, fs), Offset(fs, k);
      && ReadAt(f, o, RECORD_HEADER_SIZE) == fs[k][..RECORD_HEADER_SIZE]
      && ReadAt(f, o + RECORD_HEADER_SIZE, |fs[k]| - RECORD_HEADER_SIZE) == fs[k][RECORD_HEADER_SIZE..]
  {
    FrameBytes(a, fs, k);
    var f, o := FileOf(a, fs), Offset(fs, k);
    var frame := f[o..o + |fs[k]|];
    assert f[o..o + RECORD_HEADER_SIZE] == frame[..RECORD_HEADER_SIZE];
    assert f[o + RECORD_HEADER_SIZE..o + |fs[k]|] == frame[RECORD_HEADER_SIZE..];
  }

  lemma HeaderFound(a: Algorithms, file: Bytes, rs: seq<Record>, k: nat)
    requires Holds(a, file, rs) && k < |rs|
    ensures var fs := Frames(a, rs, false);
      var h := DecodedHeader(ReadAt(file, Offset(fs, k), RECORD_HEADER_SIZE));
      h.Some? && RECORD_HEADER_SIZE + h.value.size == |fs[k]|
  {
    var fs := Frames(a, rs, false);
    FrameHeaderAt(a, fs, k);
    FramedHeader(a, rs[k], false);
  }

  lemma RecordFound(a: Algorithms, file: Bytes, rs: seq<Record>, k: nat)
    requires Holds(a, file, rs) && k < |rs|
    ensures var fs := Frames(a, rs, false); FindRecord(a, file, Offset(fs, k)) == Some(Found(rs[k], |fs[k]|))
  {
    var fs := Frames(a, rs, false);
    FrameHeaderAt(a, fs, k);
    FramedHeader(a, rs[k], false);
    FramedBody(a, rs[k], false);
  }

  datatype IterStatus = Fine | Corrupt | OutOfBound

  class BlobFileIterator {
    const a: Algorithms
    const file: Bytes
    const number: nat
    var init: bool
    var end: int
    var status: IterStatus
    var valid: bool
    var offset: nat
    var current: Record
    var currentOffset: nat
    var currentSize: nat

    constructor (a: Algorithms, file: Bytes, number: nat)
      ensures this.a == a && this.file == file && this.number == number && !init
    {
      this.a, this.file, this.number := a, file, number;
      init, end, status, valid, offset := false, 0, Fine, false, 0;
      current, currentOffset, currentSize := Record([], []), 0, 0;
    }

    /** Opened on a file of records `rs`, about to read record `k`. */
    ghost predicate At(rs: seq<Record>, k: nat)
      reads this
    {
      && Holds(a, file, rs) && k <= |rs| && init
      && end == Offset(Frames(a, rs, false), |rs|) && offset == Offset(Frames(a, rs, false), k)
    }

    /** Positioned on record `k`. */
    ghost predicate On(rs: seq<Record>, k: nat)
      reads this
    {
      && k < |rs| && At(rs, k + 1)
      && status.Fine? && valid && current == rs[k]
      && Handle(currentOffset, currentSize) == HandleOf(Frames(a, rs, false), k)
    }

    /** Finds where the records end. A corrupt footer is noticed here and forgotten by the next seek. */
    method Init(ghost rs: seq<Record>) returns (ok: bool)
      modifies `init, `end, `status
      ensures ok ==> init
      ensures Holds(a, file, rs) ==> ok && end == Offset(Frames(a, rs, false), |rs|)
    {
      if Holds(a, file, rs) { HoldsEnds(a, file, rs); }
      if !IsHeader(ReadAt(file, 0, HEADER_SIZE)) || |file| < FOOTER_SIZE {
        status := Corrupt;
        return false;
      }
      var footer := ReadAt(file, |file| - FOOTER_SIZE, FOOTER_SIZE);
      status := if IsFooter(a, footer) then Fine else Corrupt;
      end := |file| - FOOTER_SIZE - MetaSize(footer);
      init := true;
      return true;
    }

    method Advance(found: Option<Found>)
      modifies `status, `valid, `offset, `current, `currentOffset, `currentSize
      ensures found.Some? ==>
        && status.Fine? && valid && current == found.value.record && currentOffset == old(offset)
        && currentSize == found.value.size && offset == old(offset) + found.value.size
      ensures found.None? ==> status.Corrupt? && valid == old(valid) && offset == old(offset)
    {
      if found.None? {
        status := Corrupt;
        return;
      }
      status := Fine;
      current, currentOffset, currentSize := found.value.record, offset, found.value.size;
      offset := offset + currentSize;
      valid := true;
    }

    method GetBlobRecord(ghost rs: seq<Record>, ghost k: nat)
      modifies `status, `valid, `offset, `current, `currentOffset, `currentSize
      ensures old(At(rs, k)) && k < |rs| ==> On(rs, k)
    {
      if At(rs, k) && k < |rs| {
        RecordFound(a, file, rs, k);
        StartStep(Frames(a, rs, false), k);
      }
      var found := FindRecord(a, file, offset);
      Advance(found);
    }

    method Get(ghost rs: seq<Record>, ghost k: nat)
      modifies `status, `valid, `offset, `current, `currentOffset, `currentSize
      ensures old(At(rs, k)) && k < |rs| ==> On(rs, k)
      ensures old(At(rs, k)) && k == |rs| ==> At(rs, k) && !valid && status == old(status)
    {
      if At(rs, k) && k < |rs| { StartsIncrease(Frames(a, rs, false), RECORD_HEADER_SIZE, k, |rs|); }
      if offset >= end {
        valid := false;
        return;
      }
      GetBlobRecord(rs, k);
    }

    method SeekToFirst(ghost rs: seq<Record>)
      requires init ==> Holds(a, file, rs) ==> end == Offset(Frames(a, rs, false), |rs|)
      modifies this
      ensures Holds(a, file, rs) ==> On(rs, 0)
    {
      if !init {
        var ok := Init(rs);
        if !ok { return; }
      }
      status := Fine;
      offset := HEADER_SIZE;
      assert Frames(a, rs, false)[..0] == [];
      Get(rs, 0);
    }

    /** Reads record `k`, the one the iterator stands before; after the last record it only becomes invalid. */
    method Next(ghost rs: seq<Record>, ghost k: nat)
      requires At(rs, k)
      modifies this
      ensures k < |rs| ==> On(rs, k)
      ensures k == |rs| ==> At(rs, k) && !valid && status == old(status)
    {
      Get(rs, k);
    }

    /** The size of the record that the header at the iterator's offset announces. */
    method ReadHeader(ghost rs: seq<Record>, ghost j: nat) returns (total: Option<nat>)
      ensures At(rs, j) && j < |rs| ==> total == Some(|Frames(a, rs, false)[j]|)
      ensures total.Some? ==> total.value >= RECORD_HEADER_SIZE
    {
      if At(rs, j) && j < |rs| { HeaderFound(a, file, rs, j); }
      var h := DecodedHeader(ReadAt(file, offset, RECORD_HEADER_SIZE));
      total := if h.None? then None else Some(RECORD_HEADER_SIZE + h.value.size);
    }

    /** Walks over record headers up to the first record that starts at or after `target`. */
    method Scan(target: nat, ghost rs: seq<Record>) returns (ok: bool, total: nat, ghost j: nat)
      requires target < end && status.Fine?
      modifies `offset, `status
      ensures ok ==> offset >= target && status.Fine? && total <= offset
      ensures old(At(rs, 0)) ==> ok && At(rs, j) && Landed(Frames(a, rs, false), j, total, target)
    {
      total, j := 0, 0;
      ghost var good := At(rs, 0);
      ghost var fs := Frames(a, rs, false);
      while offset < target
        invariant status.Fine? && total <= offset
        invariant good ==> At(rs, j) && Landed(fs, j, total, target)
        decreases target - offset
      {
        var size := ReadHeader(rs, j);
        if size.None? {
          status := Corrupt;
          return false, total, j;
        }
        if good { StartStep(fs, j); }
        status := Fine;
        total := size.value;
        offset := offset + total;
        j := j + 1;
      }
      ok := true;
    }

    method Locate(target: nat, ghost rs: seq<Record>) returns (ghost k: nat)
      requires target < end && status.Fine?
      modifies `offset, `status, `valid
      ensures old(At(rs, 0)) ==> k < |rs| && At(rs, k) && status.Fine? && !valid && Contains(Frames(a, rs, false), k, target)
    {
      var ok, total;
      ghost var good := At(rs, 0);
      ok, total, k := Scan(target, rs);
      if !ok { return; }
      if good { Located(Frames(a, rs, false), k, total, target); }
      if offset > target {
        offset := offset - total;
        k := if k == 0 then 0 else k - 1;
      }
      valid := false;
    }

    /**
     * Stops at the start of the record whose bytes hold `target`, or at the first record for a
     * target in the header; the next Next reads that record.
     */
    method IterateForPrev(target: nat, ghost rs: seq<Record>) returns (ghost k: nat)
      requires init ==> Holds(a, file, rs) ==> end == Offset(Frames(a, rs, false), |rs|)
      modifies this
      ensures Holds(a, file, rs) && target >= Offset(Frames(a, rs, false), |rs|) ==> status.OutOfBound? && offset == target
      ensures Holds(a, file, rs) && target < Offset(Frames(a, rs, false), |rs|) ==>
        k < |rs| && At(rs, k) && status.Fine? && !valid && Contains(Frames(a, rs, false), k, target)
    {
      k := 0;
      if !init {
        var ok := Init(rs);
        if !ok { return; }
      }
      status := Fine;
      if target >= end {
        offset := target;
        status := OutOfBound;
        return;
      }
      offset := HEADER_SIZE;
      assert Frames(a, rs, false)[..0] == [];
      k := Locate(target, rs);
    }

    method GetBlobIndex(ghost rs: seq<Record>, ghost k: nat) returns (i: Index)
      requires On(rs, k)
      ensures i == IndexOf(a, rs, number, k)
    {
      return Index(number, currentOffset, currentSize);
    }
  }

  lemma HoldsEnds(a: Algorithms, file: Bytes, rs: seq<Record>)
    requires Holds(a, file, rs)
    ensures |file| >= HEADER_SIZE + FOOTER_SIZE
    ensures IsHeader(ReadAt(file, 0, HEADER_SIZE))
    ensures MetaSize(ReadAt(file, |file| - FOOTER_SIZE, FOOTER_SIZE)) == 0
    ensures |file| - FOOTER_SIZE == Offset(Frames(a, rs, false), |rs|)
  {
    FileEnds(a, Frames(a, rs, false));
    ReadEnds(file);
    HeaderRoundTrip();
    FooterRoundTrip(a);
  }

  lemma ReadEnds(file: Bytes)
    requires |file| >= HEADER_SIZE + FOOTER_SIZE
    ensures ReadAt(file, 0, HEADER_SIZE) == file[..HEADER_SIZE]
    ensures ReadAt(file, |file| - FOOTER_SIZE, FOOTER_SIZE) == file[|file| - FOOTER_SIZE..]
  {}

  /** After `j` headers the last frame read began before the target. */
  ghost predicate Landed(fs: seq<Bytes>, j: nat, total: nat, target: nat) {
    && j <= |fs|
    && (j == 0 ==> total == 0)
    && (j > 0 ==> total == |fs[j - 1]| && Offset(fs, j) == Offset(fs, j - 1) + total && Offset(fs, j - 1) < target)
  }

  /** Frame `k` holds position `target`; positions in the file header belong to the first frame. */
  ghost predicate Contains(fs: seq<Bytes>, k: nat, target: nat)
    requires k < |fs|
  {
    if target < HEADER_SIZE then k == 0 else Offset(fs, k) <= target < Offset(fs, k + 1)
  }

  lemma Located(fs: seq<Bytes>, j: nat, total: nat, target: nat)
    requires fs != [] && Landed(fs, j, total, target) && target <= Offset(fs, j) && target < Offset(fs, |fs|)
    requires forall i :: 0 <= i < |fs| ==> |fs[i]| >= RECORD_HEADER_SIZE
    ensures var k := if Offset(fs, j) > target && j > 0 then j - 1 else j;
      k < |fs| && Contains(fs, k, target) && Offset(fs, k) == if Offset(fs, j) > target then Offset(fs, j) - total else Offset(fs, j)
  {
    assert fs[..0] == [];
    if j < |fs| { StartStep(fs, j); }
  }

  ghost predicate HandlesOf(fs: seq<Bytes>, handles: seq<Handle>) {
    |handles| <= |fs| && forall j :: 0 <= j < |handles| ==> handles[j] == HandleOf(fs, j)
  }

  /** Writes all records to a new file. */
  method Build(a: Algorithms, lt: (Bytes, Bytes) -> bool, rs: seq<Record>)
    returns (file: Bytes, handles: seq<Handle>, smallest: Bytes, largest: Bytes)
    ensures file == FileBytes(a, rs, false)
    ensures |handles| == |rs| && HandlesOf(Frames(a, rs, false), handles)
    ensures (smallest, largest) == KeyRange(lt, rs)
    ensures BoundIfKeyed(lt, rs, (smallest, largest))
  {
    var builder := new BlobFileBuilder(a, lt, false, true);
    handles := [];
    for i := 0 to |rs|
      invariant fresh(builder) && builder.ok && builder.Valid() && builder.a == a && builder.lt == lt && !builder.onlyValue
      invariant builder.records == rs[..i] && |handles| == i && HandlesOf(Frames(a, rs, false), handles)
    {
      handles := AddOne(builder, rs, i, handles);
    }
    assert rs[..|rs|] == rs;
    builder.Finish(true, true);
    file, smallest, largest := builder.file, builder.smallest, builder.largest;
    KeyRangeIsBoundIfKeyed(lt, rs);
  }

  method AddOne(builder: BlobFileBuilder, rs: seq<Record>, i: nat, before: seq<Handle>) returns (handles: seq<Handle>)
    requires i < |rs| && builder.ok && !builder.onlyValue && builder.Valid()
    requires builder.records == rs[..i] && |before| == i && HandlesOf(Frames(builder.a, rs, false), before)
    modifies builder
    ensures builder.ok && builder.Valid() && builder.records == rs[..i + 1] && |handles| == i + 1
    ensures HandlesOf(Frames(builder.a, rs, false), handles)
  {
    assert rs[..i + 1] == rs[..i] + [rs[i]];
    var handle := builder.Add(rs[i], true);
    assert builder.records == rs[..i + 1];
    PrefixHandle(builder.a, rs, i);
    handles := before + [handle];
  }

  lemma PrefixHandle(a: Algorithms, rs: seq<Record>, k: nat)
    requires k < |rs|
    ensures HandleOf(Frames(a, rs[..k + 1], false), k) == HandleOf(Frames(a, rs, false), k)
  {
    var fs, gs := Frames(a, rs, false), Frames(a, rs[..k + 1], false);
    assert gs[..k] == fs[..k];
  }

  /** What was written is what is read: every record, in order, at the index its Add returned. */
  method BuildAndIterate(a: Algorithms, lt: (Bytes, Bytes) -> bool, number: nat, rs: seq<Record>)
    returns (seen: seq<Record>, indexes: seq<Index>, handles: seq<Handle>)
    requires Sound(a) && rs != [] && AllStorable(a, rs, false)
    ensures seen == rs && |indexes| == |handles| == |rs|
    ensures forall i :: 0 <= i < |rs| ==> indexes[i] == Index(number, handles[i].offset, handles[i].size)
  {
    var file, smallest, largest;
    file, handles, smallest, largest := Build(a, lt, rs);
    seen, indexes := IterateAll(a, file, number, rs);
  }

  /** The first `k` records have been listed, each with its index. */
  ghost predicate Listed(a: Algorithms, rs: seq<Record>, number: nat, k: nat, seen: seq<Record>, indexes: seq<Index>) {
    k <= |rs| && seen == rs[..k] && |indexes| == k && forall i :: 0 <= i < k ==> indexes[i] == IndexOf(a, rs, number, i)
  }

  lemma ListedMore(a: Algorithms, rs: seq<Record>, number: nat, k: nat, seen: seq<Record>, indexes: seq<Index>)
    requires Listed(a, rs, number, k, seen, indexes) && k < |rs|
    ensures Listed(a, rs, number, k + 1, seen + [rs[k]], indexes + [IndexOf(a, rs, number, k)])
  {}

  method ListOne(it: BlobFileIterator, ghost rs: seq<Record>, ghost k: nat, seen: seq<Record>, indexes: seq<Index>)
    returns (seen': seq<Record>, indexes': seq<Index>)
    requires it.On(rs, k) && Listed(it.a, rs, it.number, k, seen, indexes)
    modifies it
    ensures if k + 1 < |rs| then it.On(rs, k + 1) else !it.valid
    ensures Listed(it.a, rs, it.number, k + 1, seen', indexes')
  {
    var index := it.GetBlobIndex(rs, k);
    seen', indexes' := seen + [it.current], indexes + [index];
    ListedMore(it.a, rs, it.number, k, seen, indexes);
    it.Next(rs, k + 1);
  }

  method IterateAll(a: Algorithms, file: Bytes, number: nat, ghost rs: seq<Record>) returns (seen: seq<Record>, indexes: seq<Index>)
    requires Holds(a, file, rs)
    ensures seen == rs && |indexes| == |rs|
    ensures forall i :: 0 <= i < |rs| ==> indexes[i] == IndexOf(a, rs, number, i)
  {
    var it := new BlobFileIterator(a, file, number);
    seen, indexes := [], [];
    it.SeekToFirst(rs);
    ghost var k := 0;
    while it.valid
      invariant fresh(it) && it.a == a && it.number == number
      invariant Listed(a, rs, number, k, seen, indexes) && if k < |rs| then it.On(rs, k) else !it.valid
      decreases |rs| - k
    {
      seen, indexes := ListOne(it, rs, k, seen, indexes);
      k := k + 1;
    }
  }
}
