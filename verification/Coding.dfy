/** The integer and string encodings that manifests and blob files are made of. */
module Coding {
  import opened Order

  datatype Option<+T> = None | Some(value: T)

  /** A decoded value and the bytes after it. */
  datatype Parsed<+T> = Parsed(value: T, rest: Bytes)

  const U32: nat := 0x1_0000_0000
  const U64: nat := 0x1_0000_0000_0000_0000

  // Base-128 integers, low digits first, with the high bit set on all but the last byte.

  function Varint(n: nat): Bytes {
    if n < 128 then [n] else [128 + n % 128] + Varint(n / 128)
  }

  /** Reads at most `limit` bytes of a base-128 integer. */
  function GetVarint(src: Bytes, limit: nat): (r: Option<Parsed<nat>>)
    ensures r.Some? ==> |r.value.rest| < |src|
    decreases limit
  {
    if limit == 0 || src == [] then None
    else if src[0] < 128 then Some(Parsed(src[0], src[1..]))
    else
      match GetVarint(src[1..], limit - 1)
      case None => None
      case Some(p) => Some(Parsed(src[0] - 128 + 128 * p.value, p.rest))
  }

  /** Five bytes can hold more than 32 bits; the excess is cut off. */
  function GetVarint32(src: Bytes): (r: Option<Parsed<nat>>)
    ensures r.Some? ==> |r.value.rest| < |src| && r.value.value < U32
  {
    match GetVarint(src, 5)
    case None => None
    case Some(p) => Some(Parsed(p.value % U32, p.rest))
  }

  function GetVarint64(src: Bytes): (r: Option<Parsed<nat>>)
    ensures r.Some? ==> |r.value.rest| < |src| && r.value.value < U64
  {
    match GetVarint(src, 10)
    case None => None
    case Some(p) => Some(Parsed(p.value % U64, p.rest))
  }

  function Pow128(k: nat): nat {
    if k == 0 then 1 else 128 * Pow128(k - 1)
  }

  lemma {:induction false} VarintRoundTrip(n: nat, limit: nat, rest: Bytes)
    requires limit > 0 && n < Pow128(limit)
    ensures GetVarint(Varint(n) + rest, limit) == Some(Parsed(n, rest))
  {
    var src := Varint(n) + rest;
    if n < 128 {
      assert src[1..] == rest;
    } else {
      assert src[1..] == Varint(n / 128) + rest;
      VarintRoundTrip(n / 128, limit - 1, rest);
    }
  }

  lemma Pow128Values()
    ensures Pow128(5) >= U32 && Pow128(10) >= U64
  {
    assert Pow128(3) == 0x20_0000;
    assert Pow128(5) == 0x8_0000_0000;
    assert Pow128(7) == 0x2_0000_0000_0000;
    assert Pow128(9) == 0x8000_0000_0000_0000;
  }

  lemma SmallMod(n: nat, m: nat)
    requires n < m
    ensures n % m == n
  {
  }

  lemma Varint32RoundTrip(n: nat, rest: Bytes)
    requires n < U32
    ensures GetVarint32(Varint(n) + rest) == Some(Parsed(n, rest))
  {
    var src := Varint(n) + rest;
    assert GetVarint(src, 5) == Some(Parsed(n, rest)) by {
      Pow128Values();
      VarintRoundTrip(n, 5, rest);
    }
    SmallMod(n, U32);
  }

  lemma Varint64RoundTrip(n: nat, rest: Bytes)
    requires n < U64
    ensures GetVarint64(Varint(n) + rest) == Some(Parsed(n, rest))
  {
    var src := Varint(n) + rest;
    assert GetVarint(src, 10) == Some(Parsed(n, rest)) by {
      Pow128Values();
      VarintRoundTrip(n, 10, rest);
    }
    SmallMod(n, U64);
  }

  // Strings, preceded by their length.

  function LengthPrefixed(s: Bytes): Bytes {
    Varint(|s| % U32) + s
  }

  function GetLengthPrefixed(src: Bytes): (r: Option<Parsed<Bytes>>)
    ensures r.Some? ==> |r.value.rest| < |src|
  {
    match GetVarint32(src)
    case None => None
    case Some(p) =>
      if p.value <= |p.rest| then Some(Parsed(p.rest[..p.value], p.rest[p.value..])) else None
  }

  lemma LengthPrefixedRoundTrip(s: Bytes, rest: Bytes)
    requires |s| < U32
    ensures GetLengthPrefixed(LengthPrefixed(s) + rest) == Some(Parsed(s, rest))
  {
    assert LengthPrefixed(s) + rest == Varint(|s|) + (s + rest);
    Varint32RoundTrip(|s|, s + rest);
    assert (s + rest)[..|s|] == s && (s + rest)[|s|..] == rest;
  }
}
