/** Manifest records: what they hold and how they are written as bytes. */
module VersionEdits {
  import opened Order
  import opened Coding

  const SORTED: nat := 0
  const UNSORTED: nat := 1

  /** The persistent fields of a blob file's metadata. */
  datatype Meta = Meta(number: nat, size: nat, entries: nat, kind: nat, level: nat, smallest: Bytes, largest: Bytes)

  datatype Deletion = Deletion(number: nat, obsoleteSeq: nat)

  datatype Update = Update(number: nat, discardable: nat)

  datatype Edit = Edit(next: Option<nat>, cf: nat, added: seq<Meta>, deleted: seq<Deletion>, updated: map<nat, nat>)

  const NO_EDIT := Edit(None, 0, [], [], map[])

  // Field widths.

  predicate MetaFits(m: Meta) {
    && m.number < U64 && m.size < U64 && m.entries < U64 && m.kind < U32 && m.level < U32
    && |m.smallest| < U32 && |m.largest| < U32
  }

  ghost predicate EditFits(e: Edit) {
    && e.cf < U32
    && (e.next.Some? ==> e.next.value < U64)
    && (forall i :: 0 <= i < |e.added| ==> MetaFits(e.added[i]))
    && (forall i :: 0 <= i < |e.deleted| ==> e.deleted[i].number < U64)
    && (forall n :: n in e.updated ==> n < U64 && e.updated[n] < U64)
  }

  // Writing. `updates` is the order in which the hash table of updates is walked.

  const NEXT_FILE_NUMBER: nat := 1
  const COLUMN_FAMILY_ID: nat := 10
  const ADDED_BLOB_FILE: nat := 11
  const DELETED_BLOB_FILE: nat := 12
  const ADDED_BLOB_FILE_V2: nat := 13
  const UPDATE_DISCARDABLE_SIZE: nat := 14

  function EncodedMeta(m: Meta): Bytes {
    Varint(m.number) + Varint(m.size) + Varint(m.entries) + Varint(m.kind) + Varint(m.level)
    + LengthPrefixed(m.smallest) + LengthPrefixed(m.largest)
  }

  function EncodedNext(next: Option<nat>): Bytes {
    if next.Some? then Varint(NEXT_FILE_NUMBER) + Varint(next.value) else []
  }

  function EncodedAdded(files: seq<Meta>): Bytes {
    if files == [] then [] else
      EncodedAdded(files[..|files| - 1]) + Varint(ADDED_BLOB_FILE_V2) + EncodedMeta(files[|files| - 1])
  }

  function EncodedDeleted(files: seq<Deletion>): Bytes {
    if files == [] then [] else
      EncodedDeleted(files[..|files| - 1]) + Varint(DELETED_BLOB_FILE) + Varint(files[|files| - 1].number)
  }

  function EncodedUpdate(u: Update): Bytes {
    Varint(u.number) + Varint(u.discardable)
  }

  function EncodedUpdated(updates: seq<Update>): Bytes {
    if updates == [] then [] else
      EncodedUpdated(updates[..|updates| - 1]) + Varint(UPDATE_DISCARDABLE_SIZE) + EncodedUpdate(updates[|updates| - 1])
  }

  function Encoded(e: Edit, updates: seq<Update>): Bytes {
    EncodedNext(e.next) + Varint(COLUMN_FAMILY_ID) + Varint(e.cf)
    + EncodedAdded(e.added) + EncodedDeleted(e.deleted) + EncodedUpdated(updates)
  }

  /** `updates` lists the entries of `m`, each once. */
  ghost predicate Lists(updates: seq<Update>, m: map<nat, nat>) {
    && (forall i :: 0 <= i < |updates| ==> updates[i].number in m && m[updates[i].number] == updates[i].discardable)
    && (forall n :: n in m ==> exists i :: 0 <= i < |updates| && updates[i].number == n)
    && (forall i, j :: 0 <= i < j < |updates| ==> updates[i].number != updates[j].number)
  }

  method AppendAdded(start: Bytes, files: seq<Meta>) returns (dst: Bytes)
    ensures dst == start + EncodedAdded(files)
  {
    dst := start;
    for i := 0 to |files|
      invariant dst == start + EncodedAdded(files[..i])
    {
      assert files[..i + 1][..i] == files[..i];
      Assoc4(start, EncodedAdded(files[..i]), Varint(ADDED_BLOB_FILE_V2), EncodedMeta(files[i]));
      dst := dst + Varint(ADDED_BLOB_FILE_V2) + EncodedMeta(files[i]);
    }
    assert files[..|files|] == files;
  }

  method AppendDeleted(start: Bytes, files: seq<Deletion>) returns (dst: Bytes)
    ensures dst == start + EncodedDeleted(files)
  {
    dst := start;
    for i := 0 to |files|
      invariant dst == start + EncodedDeleted(files[..i])
    {
      assert files[..i + 1][..i] == files[..i];
      Assoc4(start, EncodedDeleted(files[..i]), Varint(DELETED_BLOB_FILE), Varint(files[i].number));
      dst := dst + Varint(DELETED_BLOB_FILE) + Varint(files[i].number);
    }
    assert files[..|files|] == files;
  }

  method AppendUpdated(start: Bytes, updates: seq<Update>) returns (dst: Bytes)
    ensures dst == start + EncodedUpdated(updates)
  {
    dst := start;
    for i := 0 to |updates|
      invariant dst == start + EncodedUpdated(updates[..i])
    {
      assert updates[..i + 1][..i] == updates[..i];
      Assoc4(start, EncodedUpdated(updates[..i]), Varint(UPDATE_DISCARDABLE_SIZE), EncodedUpdate(updates[i]));
      dst := dst + Varint(UPDATE_DISCARDABLE_SIZE) + EncodedUpdate(updates[i]);
    }
    assert updates[..|updates|] == updates;
  }

  method EncodeTo(e: Edit, updates: seq<Update>) returns (dst: Bytes)
    ensures dst == Encoded(e, updates)
  {
    dst := [];
    if e.next.Some? {
      dst := Varint(NEXT_FILE_NUMBER) + Varint(e.next.value);
    }
    dst := dst + Varint(COLUMN_FAMILY_ID) + Varint(e.cf);
    dst := AppendAdded(dst, e.added);
    dst := AppendDeleted(dst, e.deleted);
    dst := AppendUpdated(dst, updates);
  }

  // Reading.

  datatype Numbers = Numbers(number: nat, size: nat, entries: nat, kind: nat, level: nat)

  function GetNumbers(src: Bytes): (r: Option<Parsed<Numbers>>)
    ensures r.Some? ==> |r.value.rest| < |src|
  {
    var number := GetVarint64(src);
    if number.None? then None else
    var size := GetVarint64(number.value.rest);
    if size.None? then None else
    var entries := GetVarint64(size.value.rest);
    if entries.None? then None else
    var kind := GetVarint32(entries.value.rest);
    if kind.None? then None else
    var level := GetVarint32(kind.value.rest);
    if level.None? then None else
    Some(Parsed(Numbers(number.value.value, size.value.value, entries.value.value, kind.value.value, level.value.value),
                level.value.rest))
  }

  function GetMeta(src: Bytes): (r: Option<Parsed<Meta>>)
    ensures r.Some? ==> |r.value.rest| < |src|
  {
    var numbers := GetNumbers(src);
    if numbers.None? then None else
    var smallest := GetLengthPrefixed(numbers.value.rest);
    if smallest.None? then None else
    var largest := GetLengthPrefixed(smallest.value.rest);
    if largest.None? then None else
    var n := numbers.value.value;
    Some(Parsed(Meta(n.number, n.size, n.entries, n.kind, n.level, smallest.value.value, largest.value.value),
                largest.value.rest))
  }

  function GetMetaLegacy(src: Bytes): (r: Option<Parsed<Meta>>)
    ensures r.Some? ==> |r.value.rest| < |src|
  {
    var number := GetVarint64(src);
    if number.None? then None else
    var size := GetVarint64(number.value.rest);
    if size.None? then None else
    Some(Parsed(Meta(number.value.value, size.value.value, 0, UNSORTED, 0, [], []), size.value.rest))
  }

  function WithUpdate(e: Edit, number: nat, discardable: nat): Edit {
    if number in e.updated then e else e.(updated := e.updated[number := discardable])
  }

  function GetUpdate(e: Edit, src: Bytes): (r: Option<Parsed<Edit>>)
    ensures r.Some? ==> |r.value.rest| < |src|
  {
    var number := GetVarint64(src);
    if number.None? then None else
    var discardable := GetVarint64(number.value.rest);
    if discardable.None? then None else
    Some(Parsed(WithUpdate(e, number.value.value, discardable.value.value), discardable.value.rest))
  }

  function AddMeta(e: Edit, m: Option<Parsed<Meta>>): (r: Option<Parsed<Edit>>)
    ensures r.Some? ==> m.Some? && r.value.rest == m.value.rest
  {
    if m.None? then None else Some(Parsed(e.(added := e.added + [m.value.value]), m.value.rest))
  }

  /** Reads the field a tag announces into `e`. */
  function GetField(e: Edit, tag: nat, src: Bytes): (r: Option<Parsed<Edit>>)
    ensures r.Some? ==> |r.value.rest| < |src|
  {
    if tag == NEXT_FILE_NUMBER then
      var n := GetVarint64(src);
      if n.None? then None else Some(Parsed(e.(next := Some(n.value.value)), n.value.rest))
    else if tag == COLUMN_FAMILY_ID then
      var n := GetVarint32(src);
      if n.None? then None else Some(Parsed(e.(cf := n.value.value), n.value.rest))
    else if tag == ADDED_BLOB_FILE then AddMeta(e, GetMetaLegacy(src))
    else if tag == ADDED_BLOB_FILE_V2 then AddMeta(e, GetMeta(src))
    else if tag == DELETED_BLOB_FILE then
      var n := GetVarint64(src);
      if n.None? then None else Some(Parsed(e.(deleted := e.deleted + [Deletion(n.value.value, 0)]), n.value.rest))
    else if tag == UPDATE_DISCARDABLE_SIZE then GetUpdate(e, src)
    else None
  }

  function GetTagged(e: Edit, src: Bytes): (r: Option<Parsed<Edit>>)
    ensures r.Some? ==> |r.value.rest| < |src|
  {
    var tag := GetVarint32(src);
    if tag.None? then None else GetField(e, tag.value.value, tag.value.rest)
  }

  /** The edit read from `src` on top of `e`, or None for a corrupt record. */
  function Decoded(e: Edit, src: Bytes): Option<Edit>
    decreases |src|
  {
    if src == [] then Some(e) else
    var p := GetTagged(e, src);
    if p.None? then None else Decoded(p.value.value, p.value.rest)
  }

  method DecodeFrom(record: Bytes) returns (r: Option<Edit>)
    ensures r == Decoded(NO_EDIT, record)
  {
    var e, src := NO_EDIT, record;
    while src != []
      invariant Decoded(e, src) == Decoded(NO_EDIT, record)
      decreases |src|
    {
      var p := GetTagged(e, src);
      if p.None? { return None; }
      e, src := p.value.value, p.value.rest;
    }
    return Some(e);
  }

  // Round trip.

  lemma MetaRoundTrip(m: Meta, rest: Bytes)
    requires MetaFits(m)
    ensures GetMeta(EncodedMeta(m) + rest) == Some(Parsed(m, rest))
  {
    var keys := LengthPrefixed(m.smallest) + (LengthPrefixed(m.largest) + rest);
    NumbersRoundTrip(m, keys);
    Assoc8(Varint(m.number), Varint(m.size), Varint(m.entries), Varint(m.kind), Varint(m.level),
           LengthPrefixed(m.smallest), LengthPrefixed(m.largest), rest);
    LengthPrefixedRoundTrip(m.smallest, LengthPrefixed(m.largest) + rest);
    LengthPrefixedRoundTrip(m.largest, rest);
  }

  lemma NumbersRoundTrip(m: Meta, rest: Bytes)
    requires MetaFits(m)
    ensures GetNumbers(Varint(m.number) + (Varint(m.size) + (Varint(m.entries) + (Varint(m.kind) + (Varint(m.level) + rest)))))
      == Some(Parsed(Numbers(m.number, m.size, m.entries, m.kind, m.level), rest))
  {
    Varint32RoundTrip(m.level, rest);
    var b := Varint(m.level) + rest;
    Varint32RoundTrip(m.kind, b);
    var c := Varint(m.kind) + b;
    Varint64RoundTrip(m.entries, c);
    var d := Varint(m.entries) + c;
    Varint64RoundTrip(m.size, d);
    Varint64RoundTrip(m.number, Varint(m.size) + d);
  }

  lemma Assoc4(a: Bytes, b: Bytes, c: Bytes, d: Bytes)
    ensures a + b + c + d == a + (b + c + d)
  {
  }

  lemma Assoc8(a: Bytes, b: Bytes, c: Bytes, d: Bytes, e: Bytes, f: Bytes, g: Bytes, h: Bytes)
    ensures a + b + c + d + e + f + g + h == a + (b + (c + (d + (e + (f + (g + h))))))
  {
    assert e + (f + (g + h)) == e + f + g + h;
    assert a + (b + (c + (d + (e + f + g + h)))) == a + b + c + d + (e + f + g + h);
  }

  /** `bytes` turns `e` into `e'`, whatever follows. */
  ghost predicate Reads(e: Edit, bytes: Bytes, e': Edit) {
    forall rest :: Decoded(e, bytes + rest) == Decoded(e', rest)
  }

  lemma ReadsNothing(e: Edit)
    ensures Reads(e, [], e)
  {
    forall rest: Bytes ensures Decoded(e, [] + rest) == Decoded(e, rest) {
      assert [] + rest == rest;
    }
  }

  lemma ReadsThen(a: Edit, x: Bytes, b: Edit, y: Bytes, c: Edit)
    requires Reads(a, x, b) && Reads(b, y, c)
    ensures Reads(a, x + y, c)
  {
    Chain(Decoded, a, x, b, y, c);
  }

  lemma Chain<E(!new), R(!new)>(d: (E, Bytes) -> R, a: E, x: Bytes, b: E, y: Bytes, c: E)
    requires forall rest :: d(a, x + rest) == d(b, rest)
    requires forall rest :: d(b, y + rest) == d(c, rest)
    ensures forall rest :: d(a, x + y + rest) == d(c, rest)
  {
    forall rest: Bytes ensures d(a, x + y + rest) == d(c, rest) {
      assert x + y + rest == x + (y + rest);
    }
  }

  ghost predicate ReadsField(e: Edit, tag: nat, body: Bytes, e': Edit) {
    forall rest :: GetField(e, tag, body + rest) == Some(Parsed(e', rest))
  }

  lemma ReadsTagged(e: Edit, tag: nat, body: Bytes, e': Edit)
    requires tag < U32 && ReadsField(e, tag, body, e')
    ensures Reads(e, Varint(tag) + body, e')
  {
    forall rest: Bytes ensures Decoded(e, Varint(tag) + body + rest) == Decoded(e', rest) {
      assert Varint(tag) + body + rest == Varint(tag) + (body + rest);
      Varint32RoundTrip(tag, body + rest);
    }
  }

  lemma ReadsNext(e: Edit, next: Option<nat>)
    requires next.Some? ==> next.value < U64
    ensures Reads(e, EncodedNext(next), if next.Some? then e.(next := next) else e)
  {
    if next.Some? {
      forall rest ensures GetField(e, NEXT_FILE_NUMBER, Varint(next.value) + rest) == Some(Parsed(e.(next := next), rest)) {
        Varint64RoundTrip(next.value, rest);
      }
      ReadsTagged(e, NEXT_FILE_NUMBER, Varint(next.value), e.(next := next));
    } else {
      ReadsNothing(e);
    }
  }

  lemma ReadsCf(e: Edit, cf: nat)
    requires cf < U32
    ensures Reads(e, Varint(COLUMN_FAMILY_ID) + Varint(cf), e.(cf := cf))
  {
    forall rest ensures GetField(e, COLUMN_FAMILY_ID, Varint(cf) + rest) == Some(Parsed(e.(cf := cf), rest)) {
      Varint32RoundTrip(cf, rest);
    }
    ReadsTagged(e, COLUMN_FAMILY_ID, Varint(cf), e.(cf := cf));
  }

  lemma ReadsAddition(e: Edit, m: Meta)
    requires MetaFits(m)
    ensures Reads(e, Varint(ADDED_BLOB_FILE_V2) + EncodedMeta(m), e.(added := e.added + [m]))
  {
    var e' := e.(added := e.added + [m]);
    forall rest ensures GetField(e, ADDED_BLOB_FILE_V2, EncodedMeta(m) + rest) == Some(Parsed(e', rest)) {
      MetaRoundTrip(m, rest);
    }
    ReadsTagged(e, ADDED_BLOB_FILE_V2, EncodedMeta(m), e');
  }

  lemma ReadsDeletion(e: Edit, number: nat)
    requires number < U64
    ensures Reads(e, Varint(DELETED_BLOB_FILE) + Varint(number), e.(deleted := e.deleted + [Deletion(number, 0)]))
  {
    var e' := e.(deleted := e.deleted + [Deletion(number, 0)]);
    forall rest ensures GetField(e, DELETED_BLOB_FILE, Varint(number) + rest) == Some(Parsed(e', rest)) {
      Varint64RoundTrip(number, rest);
    }
    ReadsTagged(e, DELETED_BLOB_FILE, Varint(number), e');
  }

  lemma ReadsUpdate(e: Edit, u: Update)
    requires u.number < U64 && u.discardable < U64
    ensures Reads(e, Varint(UPDATE_DISCARDABLE_SIZE) + EncodedUpdate(u), WithUpdate(e, u.number, u.discardable))
  {
    var e' := WithUpdate(e, u.number, u.discardable);
    forall rest ensures GetField(e, UPDATE_DISCARDABLE_SIZE, EncodedUpdate(u) + rest) == Some(Parsed(e', rest)) {
      assert EncodedUpdate(u) + rest == Varint(u.number) + (Varint(u.discardable) + rest);
      Varint64RoundTrip(u.number, Varint(u.discardable) + rest);
      Varint64RoundTrip(u.discardable, rest);
    }
    ReadsTagged(e, UPDATE_DISCARDABLE_SIZE, EncodedUpdate(u), e');
  }

  lemma {:induction false} ReadsAdded(e: Edit, files: seq<Meta>)
    requires forall i :: 0 <= i < |files| ==> MetaFits(files[i])
    ensures Reads(e, EncodedAdded(files), e.(added := e.added + files))
  {
    if files == [] {
      assert e.added + files == e.added;
      ReadsNothing(e);
    } else {
      var n := |files| - 1;
      var mid := e.(added := e.added + files[..n]);
      ReadsAdded(e, files[..n]);
      ReadsAddition(mid, files[n]);
      assert e.added + files == mid.added + [files[n]];
      Assoc3(EncodedAdded(files[..n]), Varint(ADDED_BLOB_FILE_V2), EncodedMeta(files[n]));
      ReadsThen(e, EncodedAdded(files[..n]), mid, Varint(ADDED_BLOB_FILE_V2) + EncodedMeta(files[n]), e.(added := e.added + files));
    }
  }

  /** Obsolete sequences are not written. */
  function Forgotten(files: seq<Deletion>): seq<Deletion> {
    seq(|files|, i requires 0 <= i < |files| => Deletion(files[i].number, 0))
  }

  lemma {:induction false} ReadsDeleted(e: Edit, files: seq<Deletion>)
    requires forall i :: 0 <= i < |files| ==> files[i].number < U64
    ensures Reads(e, EncodedDeleted(files), e.(deleted := e.deleted + Forgotten(files)))
  {
    if files == [] {
      assert e.deleted + Forgotten(files) == e.deleted;
      ReadsNothing(e);
    } else {
      var n := |files| - 1;
      var mid := e.(deleted := e.deleted + Forgotten(files[..n]));
      ReadsDeleted(e, files[..n]);
      ReadsDeletion(mid, files[n].number);
      assert e.deleted + Forgotten(files) == mid.deleted + [Deletion(files[n].number, 0)];
      Assoc3(EncodedDeleted(files[..n]), Varint(DELETED_BLOB_FILE), Varint(files[n].number));
      ReadsThen(e, EncodedDeleted(files[..n]), mid, Varint(DELETED_BLOB_FILE) + Varint(files[n].number),
                e.(deleted := e.deleted + Forgotten(files)));
    }
  }

  /** Adds updates one after another, an earlier one for the same file staying. */
  function WithUpdates(e: Edit, updates: seq<Update>): Edit {
    if updates == [] then e else
      var u := updates[|updates| - 1];
      WithUpdate(WithUpdates(e, updates[..|updates| - 1]), u.number, u.discardable)
  }

  lemma {:induction false} ReadsUpdated(e: Edit, updates: seq<Update>)
    requires forall i :: 0 <= i < |updates| ==> updates[i].number < U64 && updates[i].discardable < U64
    ensures Reads(e, EncodedUpdated(updates), WithUpdates(e, updates))
  {
    if updates == [] {
      ReadsNothing(e);
    } else {
      var n := |updates| - 1;
      var u, mid := updates[n], WithUpdates(e, updates[..n]);
      ReadsUpdated(e, updates[..n]);
      ReadsUpdate(mid, u);
      Assoc3(EncodedUpdated(updates[..n]), Varint(UPDATE_DISCARDABLE_SIZE), EncodedUpdate(u));
      ReadsThen(e, EncodedUpdated(updates[..n]), mid, Varint(UPDATE_DISCARDABLE_SIZE) + EncodedUpdate(u), WithUpdates(e, updates));
    }
  }

  lemma {:induction false} UpdatesListed(e: Edit, updates: seq<Update>)
    requires forall i, j :: 0 <= i < j < |updates| ==> updates[i].number != updates[j].number
    requires e.updated == map[]
    ensures WithUpdates(e, updates) == e.(updated := WithUpdates(e, updates).updated)
    ensures forall n :: n in WithUpdates(e, updates).updated <==> exists i :: 0 <= i < |updates| && updates[i].number == n
    ensures forall i :: 0 <= i < |updates| ==> WithUpdates(e, updates).updated[updates[i].number] == updates[i].discardable
  {
    if updates != [] {
      var k := |updates| - 1;
      UpdatesListed(e, updates[..k]);
      assert updates == updates[..k] + [updates[k]];
    }
  }

  lemma UpdatesRebuilt(e: Edit, updates: seq<Update>, m: map<nat, nat>)
    requires Lists(updates, m) && e.updated == map[]
    ensures WithUpdates(e, updates) == e.(updated := m)
  {
    UpdatesListed(e, updates);
  }

  lemma ReadsEncoded(e: Edit, updates: seq<Update>)
    requires EditFits(e) && Lists(updates, e.updated)
    ensures Reads(NO_EDIT, Encoded(e, updates), e.(deleted := Forgotten(e.deleted)))
  {
    var e1 := NO_EDIT.(next := e.next);
    ReadsNext(NO_EDIT, e.next);
    var e2 := e1.(cf := e.cf);
    ReadsCf(e1, e.cf);
    var a := EncodedNext(e.next) + (Varint(COLUMN_FAMILY_ID) + Varint(e.cf));
    ReadsThen(NO_EDIT, EncodedNext(e.next), e1, Varint(COLUMN_FAMILY_ID) + Varint(e.cf), e2);
    var e3 := e2.(added := e.added);
    ReadsAdded(e2, e.added);
    assert [] + e.added == e.added && [] + Forgotten(e.deleted) == Forgotten(e.deleted);
    ReadsThen(NO_EDIT, a, e2, EncodedAdded(e.added), e3);
    var e4 := e3.(deleted := Forgotten(e.deleted));
    ReadsDeleted(e3, e.deleted);
    ReadsThen(NO_EDIT, a + EncodedAdded(e.added), e3, EncodedDeleted(e.deleted), e4);
    ReadsUpdated(e4, updates);
    UpdatesRebuilt(e4, updates, e.updated);
    ReadsThen(NO_EDIT, a + EncodedAdded(e.added) + EncodedDeleted(e.deleted), e4, EncodedUpdated(updates), e4.(updated := e.updated));
    Assoc3(EncodedNext(e.next), Varint(COLUMN_FAMILY_ID), Varint(e.cf));
  }

  /** Reading back a written edit gives every field again, except the obsolete sequences. */
  lemma EditRoundTrip(e: Edit, updates: seq<Update>)
    requires EditFits(e) && Lists(updates, e.updated)
    ensures Decoded(NO_EDIT, Encoded(e, updates)) == Some(e.(deleted := Forgotten(e.deleted)))
  {
    ReadsEncoded(e, updates);
    assert Encoded(e, updates) + [] == Encoded(e, updates);
  }

  lemma Assoc3(a: Bytes, b: Bytes, c: Bytes)
    ensures a + b + c == a + (b + c)
  {
  }
}
