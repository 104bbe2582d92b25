/** The byte format of blob files and blob indexes. */
module BlobFormat {
  import opened Order
  import opened Coding

  // Fixed-width integers, low bytes first.

  function Fixed32(n: nat): (r: Bytes)
    ensures |r| == 4
  {
    [n % 256, n / 256 % 256, n / 0x1_0000 % 256, n / 0x100_0000 % 256]
  }

  function Fixed64(n: nat): (r: Bytes)
    ensures |r| == 8
  {
    Fixed32(n % U32) + Fixed32(n / U32)
  }

  function Fixed32Value(b: Bytes): nat
    requires |b| == 4
  {
    var b0: nat, b1: nat, b2: nat, b3: nat := b[0], b[1], b[2], b[3];
    b0 + 256 * b1 + 0x1_0000 * b2 + 0x100_0000 * b3
  }

  function Fixed64Value(b: Bytes): nat
    requires |b| == 8
  {
    Fixed32Value(b[..4]) + U32 * Fixed32Value(b[4..])
  }

  lemma Fixed32RoundTrip(n: nat)
    requires n < U32
    ensures Fixed32Value(Fixed32(n)) == n
  {
    var a := n / 256;
    var b := a / 256;
    assert n / 0x1_0000 == b && n / 0x100_0000 == b / 256;
    assert n == n % 256 + 256 * (a % 256 + 256 * (b % 256 + 256 * (b / 256)));
  }

  lemma Fixed64RoundTrip(n: nat)
    requires n < U64
    ensures Fixed64Value(Fixed64(n)) == n
  {
    var b := Fixed64(n);
    assert b[..4] == Fixed32(n % U32) && b[4..] == Fixed32(n / U32);
    Fixed32RoundTrip(n % U32);
    Fixed32RoundTrip(n / U32);
  }

  // Compression and checksum are whatever the build provides.

  datatype Algorithms = Algorithms(kind: Byte, compress: Bytes -> Option<Bytes>, uncompress: (Byte, Bytes) -> Option<Bytes>,
                                   crc: Bytes -> nat)

  ghost predicate Sound(a: Algorithms) {
    && (forall x :: a.compress(x).Some? ==> a.uncompress(a.kind, a.compress(x).value) == Some(x))
    && (forall x :: a.crc(x) < U32)
  }

  predicate GoodCompressionRatio(compressed: nat, raw: nat) {
    compressed < raw - raw / 8
  }

  datatype Packed = Packed(kind: Byte, body: Bytes)

  /** Keeps the raw bytes unless compression saves at least an eighth. */
  function Compress(a: Algorithms, raw: Bytes): Packed {
    if a.kind == 0 then Packed(0, raw) else
    var c := a.compress(raw);
    if c.Some? && GoodCompressionRatio(|c.value|, |raw|) then Packed(a.kind, c.value) else Packed(0, raw)
  }

  function Uncompress(a: Algorithms, p: Packed): Option<Bytes> {
    if p.kind == 0 then Some(p.body) else a.uncompress(p.kind, p.body)
  }

  lemma CompressRoundTrip(a: Algorithms, raw: Bytes)
    requires Sound(a)
    ensures Uncompress(a, Compress(a, raw)) == Some(raw)
  {
  }

  // Records.

  datatype Record = Record(key: Bytes, value: Bytes)

  const RECORD_HEADER_SIZE: nat := 9

  /** Files written with level merge on hold values only. */
  function EncodedRecord(r: Record, onlyValue: bool): Bytes {
    if onlyValue then r.value else LengthPrefixed(r.key) + LengthPrefixed(r.value)
  }

  function DecodedRecord(src: Bytes, onlyValue: bool): Option<Record> {
    if onlyValue then Some(Record([], src)) else
    var key := GetLengthPrefixed(src);
    if key.None? then None else
    var value := GetLengthPrefixed(key.value.rest);
    if value.None? || value.value.rest != [] then None else Some(Record(key.value.value, value.value.value))
  }

  /** What a reader sees of a record: a file of values has no keys. */
  function Seen(r: Record, onlyValue: bool): Record {
    if onlyValue then Record([], r.value) else r
  }

  predicate RecordFits(r: Record) {
    |r.key| < U32 && |r.value| < U32
  }

  lemma RecordRoundTrip(r: Record, onlyValue: bool)
    requires RecordFits(r)
    ensures DecodedRecord(EncodedRecord(r, onlyValue), onlyValue) == Some(Seen(r, onlyValue))
  {
    if !onlyValue {
      LengthPrefixedRoundTrip(r.key, LengthPrefixed(r.value));
      LengthPrefixedRoundTrip(r.value, []);
      assert LengthPrefixed(r.value) + [] == LengthPrefixed(r.value);
    }
  }

  /** A record with its header: checksum, size, compression kind. */
  function Framed(a: Algorithms, r: Record, onlyValue: bool): (b: Bytes)
    ensures |b| == RECORD_HEADER_SIZE + |Compress(a, EncodedRecord(r, onlyValue)).body|
  {
    var p := Compress(a, EncodedRecord(r, onlyValue));
    var tail := Fixed32(|p.body|) + [p.kind];
    Fixed32(a.crc(tail + p.body)) + tail + p.body
  }

  /** The encoder's own limit on the size of a stored record. */
  predicate Storable(a: Algorithms, r: Record, onlyValue: bool) {
    RecordFits(r) && |Compress(a, EncodedRecord(r, onlyValue)).body| < U32 - 1
  }

  datatype FrameHeader = FrameHeader(size: nat, kind: Byte)

  /** Reads a record header; the checksum is read and not compared. */
  function DecodedHeader(src: Bytes): Option<FrameHeader> {
    if |src| < RECORD_HEADER_SIZE then None else Some(FrameHeader(Fixed32Value(src[4..8]), src[8]))
  }

  function DecodedBody(a: Algorithms, h: FrameHeader, body: Bytes, onlyValue: bool): Option<Record> {
    var raw := Uncompress(a, Packed(h.kind, body));
    if raw.None? then None else DecodedRecord(raw.value, onlyValue)
  }

  lemma FramedHeader(a: Algorithms, r: Record, onlyValue: bool)
    requires Sound(a) && Storable(a, r, onlyValue)
    ensures var p, b := Compress(a, EncodedRecord(r, onlyValue)), Framed(a, r, onlyValue);
      DecodedHeader(b[..RECORD_HEADER_SIZE]) == Some(FrameHeader(|p.body|, p.kind)) && b[RECORD_HEADER_SIZE..] == p.body
  {
    var p, b := Compress(a, EncodedRecord(r, onlyValue)), Framed(a, r, onlyValue);
    var head := b[..RECORD_HEADER_SIZE];
    assert head[4..8] == Fixed32(|p.body|) && head[8] == p.kind;
    Fixed32RoundTrip(|p.body|);
  }

  lemma FramedBody(a: Algorithms, r: Record, onlyValue: bool)
    requires Sound(a) && Storable(a, r, onlyValue)
    ensures var p := Compress(a, EncodedRecord(r, onlyValue));
      DecodedBody(a, FrameHeader(|p.body|, p.kind), p.body, onlyValue) == Some(Seen(r, onlyValue))
  {
    CompressRoundTrip(a, EncodedRecord(r, onlyValue));
    RecordRoundTrip(r, onlyValue);
  }

  // File header and footer.

  const HEADER_SIZE: nat := 8
  const FOOTER_SIZE: nat := 32
  const HEADER_MAGIC: nat := 0x2be0a614
  const VERSION: nat := 1
  const FOOTER_MAGIC: nat := 0x2be0a6148e39edc6

  function Header(): (b: Bytes)
    ensures |b| == HEADER_SIZE
  {
    Fixed32(HEADER_MAGIC) + Fixed32(VERSION)
  }

  predicate IsHeader(src: Bytes) {
    |src| >= HEADER_SIZE && Fixed32Value(src[..4]) == HEADER_MAGIC && Fixed32Value(src[4..8]) == VERSION
  }

  lemma HeaderRoundTrip()
    ensures IsHeader(Header())
  {
    var b := Header();
    assert b[..4] == Fixed32(HEADER_MAGIC) && b[4..8] == Fixed32(VERSION);
    Fixed32RoundTrip(HEADER_MAGIC);
    Fixed32RoundTrip(VERSION);
  }

  /** An empty meta index handle, padding, magic number and checksum. */
  function FooterPrefix(): (b: Bytes)
    ensures |b| == FOOTER_SIZE - 4
  {
    Varint(0) + Varint(0) + seq(18, _ => 0) + Fixed64(FOOTER_MAGIC)
  }

  function Footer(a: Algorithms): (b: Bytes)
    ensures |b| == FOOTER_SIZE
  {
    FooterPrefix() + Fixed32(a.crc(FooterPrefix()))
  }

  /** The size in a footer's meta index handle, 0 if it does not parse. */
  function MetaSize(src: Bytes): nat {
    var offset := GetVarint64(src);
    if offset.None? then 0 else
    var size := GetVarint64(offset.value.rest);
    if size.None? then 0 else size.value.value
  }

  predicate IsFooter(a: Algorithms, src: Bytes) {
    && |src| == FOOTER_SIZE
    && GetVarint64(src).Some? && GetVarint64(GetVarint64(src).value.rest).Some?
    && Fixed64Value(src[20..28]) == FOOTER_MAGIC && Fixed32Value(src[28..32]) == a.crc(src[..28])
  }

  lemma FooterRoundTrip(a: Algorithms)
    requires Sound(a)
    ensures IsFooter(a, Footer(a)) && MetaSize(Footer(a)) == 0
  {
    var b, p := Footer(a), FooterPrefix();
    assert b[..28] == p && b[28..32] == Fixed32(a.crc(p)) && b[20..28] == Fixed64(FOOTER_MAGIC);
    Fixed64RoundTrip(FOOTER_MAGIC);
    Fixed32RoundTrip(a.crc(p));
    Varint64RoundTrip(0, b[1..]);
    assert b == Varint(0) + b[1..];
    Varint64RoundTrip(0, b[2..]);
    assert b[1..] == Varint(0) + b[2..];
  }

  // Blob indexes.

  datatype Handle = Handle(offset: nat, size: nat)

  /** Where a record lies: a blob file, and an offset and size in it. */
  datatype Index = Index(file: nat, offset: nat, size: nat)

  const BLOB_RECORD: Byte := 1

  function EncodedIndex(i: Index): Bytes {
    [BLOB_RECORD] + Varint(i.file) + Varint(i.offset) + Varint(i.size)
  }

  function GetIndex(src: Bytes): Option<Parsed<Index>> {
    if src == [] || src[0] != BLOB_RECORD then None else
    var file := GetVarint64(src[1..]);
    if file.None? then None else
    var offset := GetVarint64(file.value.rest);
    if offset.None? then None else
    var size := GetVarint64(offset.value.rest);
    if size.None? then None else
    Some(Parsed(Index(file.value.value, offset.value.value, size.value.value), size.value.rest))
  }

  lemma IndexRoundTrip(i: Index, rest: Bytes)
    requires i.file < U64 && i.offset < U64 && i.size < U64
    ensures GetIndex(EncodedIndex(i) + rest) == Some(Parsed(i, rest))
  {
    var c := Varint(i.size) + rest;
    var b := Varint(i.offset) + c;
    assert EncodedIndex(i) + rest == [BLOB_RECORD] + (Varint(i.file) + b);
    assert (EncodedIndex(i) + rest)[1..] == Varint(i.file) + b;
    Varint64RoundTrip(i.file, b);
    Varint64RoundTrip(i.offset, c);
    Varint64RoundTrip(i.size, rest);
  }
}
