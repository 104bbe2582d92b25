/** Reading single records of a blob file through a cache. */
module BlobReader {
  import opened Order
  import opened Coding
  import opened BlobFormat
  import opened Layout
  import opened BlobFileIO

  /** The uncompressed bytes of a framed record. */
  function FramePayload(a: Algorithms, frame: Bytes): Option<Bytes> {
    var head := DecodedHeader(frame);
    if head.None? || RECORD_HEADER_SIZE + head.value.size > |frame| then None
    else Uncompress(a, Packed(head.value.kind, frame[RECORD_HEADER_SIZE..RECORD_HEADER_SIZE + head.value.size]))
  }

  function StoredPayload(a: Algorithms, file: Bytes, h: Handle): Option<Bytes> {
    var blob := ReadAt(file, h.offset, h.size);
    if |blob| != h.size then None else FramePayload(a, blob)
  }

  /** An uncached read; `onlyValue` says how the caller wants the bytes taken. */
  function ReadRecord(a: Algorithms, file: Bytes, h: Handle, onlyValue: bool): Option<Record> {
    var payload := StoredPayload(a, file, h);
    if payload.None? then None else DecodedRecord(payload.value, onlyValue)
  }

  ghost predicate IsFile(a: Algorithms, file: Bytes, rs: seq<Record>, onlyValue: bool) {
    file == FileBytes(a, rs, onlyValue) && Sound(a) && AllStorable(a, rs, onlyValue)
  }

  lemma FramedPayload(a: Algorithms, r: Record, onlyValue: bool)
    requires Sound(a) && Storable(a, r, onlyValue)
    ensures FramePayload(a, Framed(a, r, onlyValue)) == Some(EncodedRecord(r, onlyValue))
  {
    var p, b := Compress(a, EncodedRecord(r, onlyValue)), Framed(a, r, onlyValue);
    FramedHeader(a, r, onlyValue);
    assert b[..RECORD_HEADER_SIZE][4..8] == b[4..8];
    assert b[RECORD_HEADER_SIZE..RECORD_HEADER_SIZE + |p.body|] == b[RECORD_HEADER_SIZE..];
    CompressRoundTrip(a, EncodedRecord(r, onlyValue));
  }

  lemma PayloadStored(a: Algorithms, file: Bytes, rs: seq<Record>, onlyValue: bool, k: nat)
    requires IsFile(a, file, rs, onlyValue) && k < |rs|
    ensures StoredPayload(a, file, HandleOf(Frames(a, rs, onlyValue), k)) == Some(EncodedRecord(rs[k], onlyValue))
  {
    FramedPayload(a, rs[k], onlyValue);
    StoredAt(a, Frames(a, rs, onlyValue), k, EncodedRecord(rs[k], onlyValue));
  }

  lemma StoredAt(a: Algorithms, fs: seq<Bytes>, k: nat, payload: Bytes)
    requires k < |fs| && FramePayload(a, fs[k]) == Some(payload)
    ensures StoredPayload(a, FileOf(a, fs), HandleOf(fs, k)) == Some(payload)
  {
    FrameBytes(a, fs, k);
    var file, h := FileOf(a, fs), HandleOf(fs, k);
    assert ReadAt(file, h.offset, h.size) == fs[k];
  }

  /** A read with the flag the file was written with gives the record. */
  lemma ReadGivesRecord(a: Algorithms, file: Bytes, rs: seq<Record>, onlyValue: bool, k: nat)
    requires IsFile(a, file, rs, onlyValue) && k < |rs|
    ensures ReadRecord(a, file, HandleOf(Frames(a, rs, onlyValue), k), onlyValue) == Some(Seen(rs[k], onlyValue))
  {
    PayloadStored(a, file, rs, onlyValue, k);
    RecordRoundTrip(rs[k], onlyValue);
  }

  lemma OffsetsDistinct(fs: seq<Bytes>, j: nat, k: nat)
    requires j < |fs| && k < |fs| && Offset(fs, j) == Offset(fs, k)
    requires forall i :: 0 <= i < |fs| ==> |fs[i]| >= RECORD_HEADER_SIZE
    ensures j == k
  {
    if j < k { StartsIncrease(fs, RECORD_HEADER_SIZE, j, k); }
    if k < j { StartsIncrease(fs, RECORD_HEADER_SIZE, k, j); }
  }

  /** Each cached entry is the payload of the record that starts at its offset. */
  ghost predicate CacheOk(a: Algorithms, file: Bytes, fs: seq<Bytes>, cache: map<nat, Bytes>) {
    forall o :: o in cache ==> exists k :: 0 <= k < |fs| && o == Offset(fs, k) && Some(cache[o]) == StoredPayload(a, file, HandleOf(fs, k))
  }

  lemma CachedPayload(a: Algorithms, file: Bytes, fs: seq<Bytes>, cache: map<nat, Bytes>, k: nat)
    requires CacheOk(a, file, fs, cache) && k < |fs| && Offset(fs, k) in cache
    requires forall i :: 0 <= i < |fs| ==> |fs[i]| >= RECORD_HEADER_SIZE
    ensures Some(cache[Offset(fs, k)]) == StoredPayload(a, file, HandleOf(fs, k))
  {
    var o := Offset(fs, k);
    var j :| 0 <= j < |fs| && o == Offset(fs, j) && Some(cache[o]) == StoredPayload(a, file, HandleOf(fs, j));
    OffsetsDistinct(fs, j, k);
  }

  class BlobFileReader {
    const a: Algorithms
    const file: Bytes
    const cached: bool
    var cache: map<nat, Bytes>

    constructor (a: Algorithms, file: Bytes, cached: bool)
      ensures this.a == a && this.file == file && this.cached == cached && cache == map[]
    {
      this.a, this.file, this.cached, cache := a, file, cached, map[];
    }

    /** A read through the cache gives what an uncached read of the same handle would. */
    method Get(h: Handle, onlyValue: bool, ghost fs: seq<Bytes>, ghost k: nat) returns (r: Option<Record>)
      requires CacheOk(a, file, fs, cache) && k < |fs| && h == HandleOf(fs, k)
      requires forall i :: 0 <= i < |fs| ==> |fs[i]| >= RECORD_HEADER_SIZE
      modifies `cache
      ensures CacheOk(a, file, fs, cache)
      ensures r == ReadRecord(a, file, h, onlyValue)
    {
      if cached && h.offset in cache {
        CachedPayload(a, file, fs, cache, k);
        return DecodedRecord(cache[h.offset], onlyValue);
      }
      var payload := StoredPayload(a, file, h);
      r := if payload.None? then None else DecodedRecord(payload.value, onlyValue);
      if r.Some? && cached {
        cache := cache[h.offset := payload.value];
      }
    }

    method Evict(offset: nat, ghost fs: seq<Bytes>)
      requires CacheOk(a, file, fs, cache)
      modifies `cache
      ensures CacheOk(a, file, fs, cache) && cache == old(cache) - {offset}
    {
      cache := cache - {offset};
    }
  }
}
