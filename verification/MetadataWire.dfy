/** The stored form of a metadata snapshot: a fixed header, fields with their names inline, key
    columns, and a hash over all of it. */
module MetadataWire {
  import opened Options
  import opened WireLayout
  import opened Streams
  import opened Concatenation

  const MAGIC := 0x31535056
  const VERSION := 1
  const MAX_BYTES := 0x10_0000
  const MAX_FIELDS := 64
  const MAX_KEYS := 32

  type U8 = x: nat | x < 0x100
  type U16 = x: nat | x < 0x1_0000
  type U32 = x: nat | x < 0x1_0000_0000
  type U64 = x: nat | x < 0x1_0000_0000_0000_0000
  type I32 = x: int | -0x8000_0000 <= x < 0x8000_0000

  datatype Info = Info(
    typeOid: U32, typeModifier: I32, originRelation: U32, originAttribute: I32, srid: U32,
    kind: U8, shape: U8, dimensions: U8, collation: U32, policy: U64)

  datatype Field = Field(name: seq<Byte>, info: Info)

  datatype Facts = Facts(
    visibleCount: U16, sourceFingerprint: U64, layoutFingerprint: U64, capturedAt: U64, validatedAt: U64,
    generation: U64, relation: U32, spatialNamespace: U32, geometry: U32, geography: U32, spatialFlags: U32,
    spatialFormat: U32, identityHash: U64, relationPolicy: U64)

  datatype Content = Content(facts: Facts, fields: seq<Field>, keys: seq<U16>)

  // ----- what validation asks

  predicate NameOk(name: seq<Byte>) {
    0 < |name| < 0x1_0000 && 0 !in name
  }

  ghost predicate Validated(c: Content) {
    && 0 < |c.fields| <= MAX_FIELDS && 0 < c.facts.visibleCount <= |c.fields| && |c.keys| <= MAX_KEYS
    && (forall i :: 0 <= i < |c.fields| ==> NameOk(c.fields[i].name))
    && (forall i, j :: 0 <= i < j < |c.fields| ==> c.fields[i].name != c.fields[j].name)
    && (forall i :: 0 <= i < |c.keys| ==> c.keys[i] < c.facts.visibleCount)
  }

  // ----- signed numbers travel as their two's complement

  function Unsigned(x: I32): U32 { if x < 0 then x + 0x1_0000_0000 else x }
  function Signed(x: U32): I32 { if x >= 0x8000_0000 then x - 0x1_0000_0000 else x }

  // ----- one field record

  function FieldLayout(): seq<nat> { [4, 4, 4, 4, 4, 1, 1, 1, 1, 2, 2, 4, 8] }

  /** The numbers of a field record; positions 8 and 10 are padding. */
  function Numbers(f: Field): (r: seq<nat>)
    ensures |r| == 13
  {
    [f.info.typeOid, Unsigned(f.info.typeModifier), f.info.originRelation, Unsigned(f.info.originAttribute), f.info.srid,
     f.info.kind, f.info.shape, f.info.dimensions, 0, |f.name| % 0x1_0000, 0, f.info.collation, f.info.policy]
  }

  lemma FieldSize()
    ensures Size(FieldLayout()) == 40
  {
    assert Size([4, 8]) == 12;
    assert Size([1, 2, 2, 4, 8]) == 17;
    assert Size([4, 1, 1, 1, 1, 2, 2, 4, 8]) == 24;
  }

  lemma FieldFits(f: Field)
    ensures Fits(FieldLayout(), Numbers(f))
  {
    Widths();
  }

  function InfoOf(r: seq<nat>): Info
    requires Fits(FieldLayout(), r)
  {
    Widths();
    Info(r[0], Signed(r[1]), r[2], Signed(r[3]), r[4], r[5], r[6], r[7], r[11], r[12])
  }

  predicate Padded(r: seq<nat>)
    requires |r| == 13
  {
    r[8] == 0 && r[10] == 0
  }

  lemma NumbersInfo(f: Field)
    ensures Fits(FieldLayout(), Numbers(f)) && InfoOf(Numbers(f)) == f.info
    ensures Padded(Numbers(f))
  {
    FieldFits(f);
  }

  lemma InfoNumbers(r: seq<nat>, name: seq<Byte>)
    requires Fits(FieldLayout(), r) && |name| == r[9]
    ensures Numbers(Field(name, InfoOf(r))) == r[8 := 0][10 := 0]
  {
    Widths();
  }

  // ----- the fields, each record followed by its name

  function PutField(f: Field): (r: seq<Byte>)
    ensures |r| == 40 + |f.name|
  {
    FieldSize();
    PutRecord(FieldLayout(), Numbers(f)) + f.name
  }

  function PutFields(fields: seq<Field>): seq<Byte> {
    Concat(PutField, fields)
  }

  function FieldRecord(w: seq<Byte>): (r: seq<nat>)
    requires |w| >= 40
    ensures Fits(FieldLayout(), r) && |r| == 13
  {
    FieldSize();
    GetRecord(FieldLayout(), w[..40])
  }

  /** The first field of `w` and how many bytes it takes, if there is one. */
  function FirstField(w: seq<Byte>): (r: Option<Reading<Field>>)
    ensures r.Some? ==> NameOk(r.value.value.name) && r.value.size == 40 + |r.value.value.name| <= |w|
  {
    if |w| < 40 then None
    else
      var r := FieldRecord(w);
      Widths();
      if r[9] == 0 || r[9] > |w| - 40 || 0 in w[40..40 + r[9]] then None
      else Some(Reading(Field(w[40..40 + r[9]], InfoOf(r)), 40 + r[9]))
  }

  function GetFields(n: nat, w: seq<Byte>): Option<(seq<Field>, seq<Byte>)> {
    Parse(FirstField, n, w)
  }

  lemma {:induction false} NamesOk(n: nat, w: seq<Byte>)
    requires GetFields(n, w).Some?
    ensures forall i :: 0 <= i < n ==> NameOk(GetFields(n, w).value.0[i].name)
  {
    if n > 0 {
      var cut := FirstField(w).value.size;
      NamesOk(n - 1, w[cut..]);
      var fields, more := GetFields(n, w).value.0, GetFields(n - 1, w[cut..]).value.0;
      assert fields == [FirstField(w).value.value] + more;
    }
  }

  lemma RecordOfPut(f: Field, tail: seq<Byte>)
    ensures |PutField(f) + tail| >= 40 && FieldRecord(PutField(f) + tail) == Numbers(f)
  {
    FieldSize();
    FieldFits(f);
    GetPutRecord(FieldLayout(), Numbers(f));
    FrontOf(PutRecord(FieldLayout(), Numbers(f)), f.name, tail);
  }

  lemma FrontOf(head: seq<Byte>, name: seq<Byte>, tail: seq<Byte>)
    ensures (head + name + tail)[..|head|] == head
  {
  }

  lemma CutPutField(f: Field, tail: seq<Byte>)
    ensures var w := PutField(f) + tail;
            |w| >= 40 + |f.name| && w[40..40 + |f.name|] == f.name && w[40 + |f.name|..] == tail
  {
    assert PutField(f)[40..] == f.name;
  }

  lemma FirstFieldPut(f: Field, tail: seq<Byte>)
    requires NameOk(f.name)
    ensures FirstField(PutField(f) + tail) == Some(Reading(f, |PutField(f)|))
  {
    var w := PutField(f) + tail;
    RecordOfPut(f, tail);
    CutPutField(f, tail);
    NumbersInfo(f);
    assert Numbers(f)[9] == |f.name|;
  }

  lemma FieldReads(f: Field)
    requires NameOk(f.name)
    ensures Reads(PutField, FirstField, f)
  {
    forall tail ensures FirstField(PutField(f) + tail) == Some(Reading(f, |PutField(f)|)) {
      FirstFieldPut(f, tail);
    }
  }

  lemma GetPutFields(fields: seq<Field>, tail: seq<Byte>)
    requires forall i :: 0 <= i < |fields| ==> NameOk(fields[i].name)
    ensures GetFields(|fields|, PutFields(fields) + tail) == Some((fields, tail))
  {
    forall i | 0 <= i < |fields| ensures Reads(PutField, FirstField, fields[i]) { FieldReads(fields[i]); }
    ParseConcat(PutField, FirstField, fields, tail);
  }

  /** Writing a record with its padding set to zero. */
  lemma PutPadded(layout: seq<nat>, r: seq<nat>, clear: seq<nat>, w: seq<Byte>)
    requires |w| == Size(layout) && r == GetRecord(layout, w) && Fits(layout, clear)
    ensures PutRecord(layout, clear) == w <==> clear == r
  {
    PutGetRecord(layout, w);
    GetPutRecord(layout, clear);
  }

  lemma PutFirstRecord(w: seq<Byte>, f: Field)
    requires FirstField(w).Some? && FirstField(w).value.value == f
    ensures Size(FieldLayout()) == 40
    ensures PutRecord(FieldLayout(), Numbers(f)) == w[..40] <==> Padded(FieldRecord(w))
  {
    var r := FieldRecord(w);
    FieldSize();
    FieldFits(f);
    InfoNumbers(r, f.name);
    PutPadded(FieldLayout(), r, Numbers(f), w[..40]);
    assert r[8 := 0][10 := 0] == r <==> r[8] == 0 && r[10] == 0 by {
      if r[8 := 0][10 := 0] == r { assert r[8] == r[8 := 0][10 := 0][8] && r[10] == r[8 := 0][10 := 0][10]; }
    }
  }

  lemma PutFirstField(w: seq<Byte>, f: Field)
    requires FirstField(w).Some? && FirstField(w).value.value == f
    ensures PutField(f) == w[..40 + |f.name|] <==> Padded(FieldRecord(w))
  {
    PutFirstRecord(w, f);
    SplitEqual(PutRecord(FieldLayout(), Numbers(f)), f.name, w[..40 + |f.name|]);
    assert w[..40 + |f.name|][..40] == w[..40] && w[..40 + |f.name|][40..] == w[40..40 + |f.name|];
  }

  predicate FirstPadded(w: seq<Byte>) {
    |w| >= 40 && Padded(FieldRecord(w))
  }

  /** The padding inside the records of the first `n` fields is zero. */
  predicate PaddingClear(n: nat, w: seq<Byte>) {
    AllPass(FirstField, FirstPadded, n, w)
  }

  lemma FirstIsCanonical(w: seq<Byte>)
    requires FirstField(w).Some?
    ensures FirstPadded(w) <==> PutField(FirstField(w).value.value) == w[..FirstField(w).value.size]
  {
    PutFirstField(w, FirstField(w).value.value);
  }

  lemma PaddingIsCanonical(n: nat, w: seq<Byte>)
    ensures PaddingClear(n, w) <==> Canonical(PutField, FirstField, n, w)
  {
    forall v ensures Decides(PutField, FirstField, FirstPadded, v) {
      if FirstField(v).Some? { FirstIsCanonical(v); }
    }
    PassIsCanonical(PutField, FirstField, FirstPadded, n, w);
  }

  /** Fields read from `w` write back to `w` exactly when its padding is clear. */
  lemma PutGetFields(n: nat, w: seq<Byte>, fields: seq<Field>, rest: seq<Byte>)
    requires GetFields(n, w) == Some((fields, rest))
    ensures |PutFields(fields)| + |rest| == |w| && rest == w[|PutFields(fields)|..]
    ensures PutFields(fields) + rest == w <==> PaddingClear(n, w)
  {
    forall v ensures Sized(PutField, FirstField, v) { }
    ConcatParse(PutField, FirstField, n, w, fields, rest);
    PaddingIsCanonical(n, w);
  }

  // ----- key columns

  function PutKeys(keys: seq<U16>): (r: seq<Byte>)
    ensures |r| == 2 * |keys|
  {
    if keys == [] then [] else Put(2, keys[0]) + PutKeys(keys[1..])
  }

  function GetKeys(w: seq<Byte>): (keys: seq<U16>)
    requires |w| % 2 == 0
    ensures |keys| == |w| / 2
  {
    if w == [] then [] else (Widths(); [Get(w[..2])] + GetKeys(w[2..]))
  }

  lemma {:induction false} GetPutKeys(keys: seq<U16>)
    ensures GetKeys(PutKeys(keys)) == keys
  {
    if keys != [] {
      var w := PutKeys(keys);
      Widths();
      GetPut(2, keys[0]);
      GetPutKeys(keys[1..]);
      assert w[..2] == Put(2, keys[0]) && w[2..] == PutKeys(keys[1..]);
    }
  }

  lemma {:induction false} PutGetKeys(w: seq<Byte>)
    requires |w| % 2 == 0
    ensures PutKeys(GetKeys(w)) == w
  {
    if w != [] {
      PutGet(w[..2]);
      PutGetKeys(w[2..]);
      assert GetKeys(w)[1..] == GetKeys(w[2..]);
      assert w == w[..2] + w[2..];
    }
  }

  // ----- the header

  function HeaderLayout(): seq<nat> { [4, 4, 2, 2, 2, 2, 8, 8, 8, 8, 8, 4, 4, 4, 4, 4, 4, 4, 8, 8] }

  lemma HeaderSize()
    ensures Size(HeaderLayout()) == 100
  {
    assert Size([4, 4, 4, 8, 8]) == 28;
    assert Size([4, 4, 4, 4, 4, 4, 4, 8, 8]) == 44;
    assert Size([8, 8, 8, 4, 4, 4, 4, 4, 4, 4, 8, 8]) == 68;
    assert Size([2, 2, 8, 8, 8, 8, 8, 4, 4, 4, 4, 4, 4, 4, 8, 8]) == 88;
  }

  /** The header's numbers; position 5 is padding. */
  function HeaderNumbers(f: Facts, fieldCount: U16, keyCount: U16, size: U32): (r: seq<nat>)
    ensures |r| == 20
  {
    [MAGIC, VERSION, fieldCount, f.visibleCount, keyCount, 0, f.sourceFingerprint, f.layoutFingerprint, f.capturedAt,
     f.validatedAt, f.generation, f.relation, f.spatialNamespace, f.geometry, f.geography, f.spatialFlags,
     f.spatialFormat, size, f.identityHash, f.relationPolicy]
  }

  lemma HeaderFits(f: Facts, fieldCount: U16, keyCount: U16, size: U32)
    ensures Fits(HeaderLayout(), HeaderNumbers(f, fieldCount, keyCount, size))
  {
    Widths();
  }

  function FactsOf(h: seq<nat>): Facts
    requires Fits(HeaderLayout(), h)
  {
    Widths();
    Facts(h[3], h[6], h[7], h[8], h[9], h[10], h[11], h[12], h[13], h[14], h[15], h[16], h[18], h[19])
  }

  lemma FactsNumbers(h: seq<nat>)
    requires Fits(HeaderLayout(), h) && h[0] == MAGIC && h[1] == VERSION
    ensures h[2] < 0x1_0000 && h[4] < 0x1_0000 && h[17] < 0x1_0000_0000
    ensures HeaderNumbers(FactsOf(h), h[2], h[4], h[17]) == h[5 := 0]
  {
    Widths();
  }

  lemma NumbersFacts(f: Facts, fieldCount: U16, keyCount: U16, size: U32)
    ensures Fits(HeaderLayout(), HeaderNumbers(f, fieldCount, keyCount, size))
    ensures FactsOf(HeaderNumbers(f, fieldCount, keyCount, size)) == f
  {
    HeaderFits(f, fieldCount, keyCount, size);
  }

  lemma FactsBack(h: seq<nat>, f: Facts, fieldCount: U16, keyCount: U16, size: U32)
    requires h == HeaderNumbers(f, fieldCount, keyCount, size)
    ensures Fits(HeaderLayout(), h) && FactsOf(h) == f && h[2] == fieldCount && h[4] == keyCount
  {
    NumbersFacts(f, fieldCount, keyCount, size);
  }

  function PutHeader(f: Facts, fieldCount: U16, keyCount: U16, size: U32): (r: seq<Byte>)
    ensures |r| == 100
  {
    HeaderSize();
    PutRecord(HeaderLayout(), HeaderNumbers(f, fieldCount, keyCount, size))
  }

  function GetHeader(w: seq<Byte>): (h: seq<nat>)
    requires |w| >= 100
    ensures Fits(HeaderLayout(), h) && |h| == 20
  {
    HeaderSize();
    GetRecord(HeaderLayout(), w[..100])
  }

  lemma GetPutHeader(f: Facts, fieldCount: U16, keyCount: U16, size: U32, tail: seq<Byte>)
    ensures GetHeader(PutHeader(f, fieldCount, keyCount, size) + tail) == HeaderNumbers(f, fieldCount, keyCount, size)
  {
    HeaderSize();
    HeaderFits(f, fieldCount, keyCount, size);
    GetPutRecord(HeaderLayout(), HeaderNumbers(f, fieldCount, keyCount, size));
    var w := PutHeader(f, fieldCount, keyCount, size) + tail;
    assert w[..100] == PutHeader(f, fieldCount, keyCount, size);
  }

  lemma PutClearHeader(h: seq<nat>, f: Facts, fieldCount: U16, keyCount: U16, size: U32, w: seq<Byte>)
    requires |w| == Size(HeaderLayout()) && h == GetRecord(HeaderLayout(), w) && |h| == 20
    requires HeaderNumbers(f, fieldCount, keyCount, size) == h[5 := 0]
    ensures PutHeader(f, fieldCount, keyCount, size) == w <==> h[5] == 0
  {
    HeaderFits(f, fieldCount, keyCount, size);
    PutPadded(HeaderLayout(), h, h[5 := 0], w);
    ClearOne(h, 5);
  }

  lemma ClearOne(h: seq<nat>, i: nat)
    requires i < |h|
    ensures h[i := 0] == h <==> h[i] == 0
  {
    assert h[i := 0][i] == 0;
  }

  /** A header with the right marks writes back to itself exactly when its padding is zero. */
  lemma PutGetHeader(w: seq<Byte>)
    requires |w| >= 100 && GetHeader(w)[0] == MAGIC && GetHeader(w)[1] == VERSION
    ensures var h := GetHeader(w);
            && h[2] < 0x1_0000 && h[4] < 0x1_0000 && h[17] < 0x1_0000_0000
            && (PutHeader(FactsOf(h), h[2], h[4], h[17]) == w[..100] <==> h[5] == 0)
  {
    var h := GetHeader(w);
    FactsNumbers(h);
    HeaderSize();
    PutClearHeader(h, FactsOf(h), h[2], h[4], h[17], w[..100]);
  }

  /** Numbers that differ from a header's in the padding alone. */
  function PaddedNumbers(f: Facts, fieldCount: U16, keyCount: U16, size: U32, padding: U16): (h: seq<nat>)
    ensures |h| == 20
  {
    HeaderNumbers(f, fieldCount, keyCount, size)[5 := padding]
  }

  lemma PaddedFits(f: Facts, fieldCount: U16, keyCount: U16, size: U32, padding: U16)
    ensures Fits(HeaderLayout(), PaddedNumbers(f, fieldCount, keyCount, size, padding))
  {
    Widths();
  }

  lemma PaddedFacts(f: Facts, fieldCount: U16, keyCount: U16, size: U32, padding: U16)
    ensures var h := PaddedNumbers(f, fieldCount, keyCount, size, padding);
            && Fits(HeaderLayout(), h) && FactsOf(h) == f && h[0] == MAGIC && h[1] == VERSION
            && h[2] == fieldCount && h[4] == keyCount && h[5] == padding && h[17] == size
  {
    PaddedFits(f, fieldCount, keyCount, size, padding);
  }

  function PutNumbers(h: seq<nat>): (r: seq<Byte>)
    requires Fits(HeaderLayout(), h)
    ensures |r| == 100
  {
    HeaderSize();
    PutRecord(HeaderLayout(), h)
  }

  lemma GetPutNumbers(h: seq<nat>, tail: seq<Byte>)
    requires Fits(HeaderLayout(), h)
    ensures GetHeader(PutNumbers(h) + tail) == h
  {
    HeaderSize();
    GetPutRecord(HeaderLayout(), h);
    assert (PutNumbers(h) + tail)[..100] == PutNumbers(h);
  }
}
