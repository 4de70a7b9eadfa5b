/** Storing a snapshot and reading it back. The hash is any function of the bytes. */
module MetadataCodec {
  import opened Options
  import opened WireLayout
  import opened Streams
  import opened MetadataWire

  type Hash = seq<Byte> -> U64

  // ----- encoding

  function SizeOf(c: Content): (n: nat)
    ensures n >= 108
  {
    108 + |PutFields(c.fields)| + 2 * |c.keys|
  }

  ghost predicate Storable(c: Content) {
    Validated(c) && SizeOf(c) <= MAX_BYTES
  }

  function Payload(c: Content): seq<Byte> {
    PutFields(c.fields) + PutKeys(c.keys)
  }

  ghost function Body(c: Content): (b: seq<Byte>)
    requires Storable(c)
    ensures |b| == SizeOf(c) - 8
  {
    PutHeader(c.facts, |c.fields|, |c.keys|, SizeOf(c)) + Payload(c)
  }

  ghost function Encoded(hash: Hash, c: Content): (b: seq<Byte>)
    requires Storable(c)
    ensures |b| == SizeOf(c)
  {
    Body(c) + Put(8, hash(Body(c)))
  }

  // ----- decoding

  /** The marks, the length and the hash of a stored snapshot agree with its bytes. */
  predicate Sealed(hash: Hash, b: seq<Byte>) {
    && 108 <= |b| <= MAX_BYTES
    && GetHeader(b)[0] == MAGIC && GetHeader(b)[1] == VERSION && GetHeader(b)[17] == |b|
    && hash(b[..|b| - 8]) == Get(b[|b| - 8..])
  }

  /** The bytes between header and hash. */
  function Middle(b: seq<Byte>): seq<Byte>
    requires |b| >= 108
  {
    b[100..|b| - 8]
  }

  /** Counts in range, fields readable, and exactly the key columns left. */
  predicate Readable(b: seq<Byte>)
    requires |b| >= 108
  {
    var h := GetHeader(b);
    && h[2] <= MAX_FIELDS && h[4] <= MAX_KEYS
    && var r := GetFields(h[2], Middle(b));
       r.Some? && |r.value.1| == 2 * h[4]
  }

  function Read(b: seq<Byte>): (c: Content)
    requires |b| >= 108 && Readable(b)
    ensures |c.fields| == GetHeader(b)[2] && |c.keys| == GetHeader(b)[4]
    ensures forall i :: 0 <= i < |c.fields| ==> NameOk(c.fields[i].name)
  {
    var h := GetHeader(b);
    var (fields, rest) := GetFields(h[2], Middle(b)).value;
    NamesOk(h[2], Middle(b));
    Content(FactsOf(h), fields, GetKeys(rest))
  }

  ghost function Decoded(hash: Hash, b: seq<Byte>): (r: Option<Content>) {
    if Sealed(hash, b) && Readable(b) && Validated(Read(b)) then Some(Read(b)) else None
  }

  // ----- decode after encode

  lemma Parts(head: seq<Byte>, payload: seq<Byte>, seal: seq<Byte>)
    requires |head| == 100 && |seal| == 8
    ensures var b := head + payload + seal;
            && |b| >= 108 && b[..|b| - 8] == head + payload && b[|b| - 8..] == seal
            && Middle(b) == payload && b == head + (payload + seal)
  {
  }

  lemma EncodedParts(hash: Hash, c: Content)
    requires Storable(c)
    ensures var b := Encoded(hash, c);
            && |b| == SizeOf(c) && Middle(b) == Payload(c) && b[..|b| - 8] == Body(c)
            && b[|b| - 8..] == Put(8, hash(Body(c)))
            && GetHeader(b) == HeaderNumbers(c.facts, |c.fields|, |c.keys|, SizeOf(c))
  {
    var head, payload, seal := PutHeader(c.facts, |c.fields|, |c.keys|, SizeOf(c)), Payload(c), Put(8, hash(Body(c)));
    Parts(head, payload, seal);
    GetPutHeader(c.facts, |c.fields|, |c.keys|, SizeOf(c), payload + seal);
  }

  lemma EncodedSealed(hash: Hash, c: Content)
    requires Storable(c)
    ensures Sealed(hash, Encoded(hash, c))
  {
    EncodedParts(hash, c);
    Widths();
    GetPut(8, hash(Body(c)));
  }

  lemma EncodedFacts(hash: Hash, c: Content)
    requires Storable(c)
    ensures FactsOf(GetHeader(Encoded(hash, c))) == c.facts
    ensures GetHeader(Encoded(hash, c))[2] == |c.fields| && GetHeader(Encoded(hash, c))[4] == |c.keys|
  {
    EncodedParts(hash, c);
    FactsBack(GetHeader(Encoded(hash, c)), c.facts, |c.fields|, |c.keys|, SizeOf(c));
  }

  lemma EncodedFields(hash: Hash, c: Content)
    requires Storable(c)
    ensures GetFields(|c.fields|, Middle(Encoded(hash, c))) == Some((c.fields, PutKeys(c.keys)))
  {
    EncodedParts(hash, c);
    GetPutFields(c.fields, PutKeys(c.keys));
  }

  lemma EncodedReads(hash: Hash, c: Content)
    requires Storable(c)
    ensures Readable(Encoded(hash, c)) && Read(Encoded(hash, c)) == c
  {
    var b, keys := Encoded(hash, c), PutKeys(c.keys);
    EncodedFacts(hash, c);
    EncodedFields(hash, c);
    GetPutKeys(c.keys);
    ReadIs(b, GetHeader(b), Middle(b), keys, c);
  }

  lemma ReadIs(b: seq<Byte>, h: seq<nat>, w: seq<Byte>, rest: seq<Byte>, c: Content)
    requires |b| >= 108 && h == GetHeader(b) && w == Middle(b) && FactsOf(h) == c.facts
    requires h[2] == |c.fields| <= MAX_FIELDS && h[4] == |c.keys| <= MAX_KEYS
    requires GetFields(h[2], w) == Some((c.fields, rest)) && |rest| == 2 * h[4] && GetKeys(rest) == c.keys
    ensures Readable(b) && Read(b) == c
  {
  }

  /** What was stored is what is read. */
  lemma DecodeEncode(hash: Hash, c: Content)
    requires Storable(c)
    ensures Decoded(hash, Encoded(hash, c)) == Some(c)
  {
    EncodedSealed(hash, c);
    EncodedReads(hash, c);
  }

  // ----- encode after decode

  /** Every accepted byte string holds a valid snapshot that can be stored again, in as many bytes. */
  lemma DecodedStorable(hash: Hash, b: seq<Byte>)
    requires Decoded(hash, b).Some?
    ensures Storable(Decoded(hash, b).value) && SizeOf(Decoded(hash, b).value) == |b|
  {
    var n := GetHeader(b)[2];
    var (fields, rest) := GetFields(n, Middle(b)).value;
    assert |PutFields(fields)| + |rest| == |Middle(b)| by { PutGetFields(n, Middle(b), fields, rest); }
  }

  predicate PaddingZero(b: seq<Byte>)
    requires |b| >= 108
  {
    GetHeader(b)[5] == 0 && PaddingClear(GetHeader(b)[2], Middle(b))
  }

  lemma PayloadBack(n: nat, w: seq<Byte>, fields: seq<Field>, rest: seq<Byte>)
    requires GetFields(n, w) == Some((fields, rest)) && |rest| % 2 == 0
    ensures PutFields(fields) + PutKeys(GetKeys(rest)) == w <==> PaddingClear(n, w)
  {
    PutGetFields(n, w, fields, rest);
    PutGetKeys(rest);
  }

  lemma ReadBack(b: seq<Byte>, c: Content)
    requires |b| >= 108 && Readable(b) && c == Read(b)
    ensures Payload(c) == Middle(b) <==> PaddingClear(GetHeader(b)[2], Middle(b))
  {
    var (fields, rest) := GetFields(GetHeader(b)[2], Middle(b)).value;
    PayloadBack(GetHeader(b)[2], Middle(b), fields, rest);
  }

  lemma Halves(head: seq<Byte>, payload: seq<Byte>, b: seq<Byte>)
    requires |b| >= 108 && |head| == 100
    ensures head + payload == b[..|b| - 8] <==> head == b[..100] && payload == Middle(b)
  {
    var body := b[..|b| - 8];
    assert body[..100] == b[..100] && body[100..] == Middle(b);
    SplitEqual(head, payload, body);
  }

  lemma BodyBack(b: seq<Byte>, facts: Facts, n: U16, k: U16, size: U32, payload: seq<Byte>)
    requires |b| >= 108 && GetHeader(b)[0] == MAGIC && GetHeader(b)[1] == VERSION
    requires n == GetHeader(b)[2] && k == GetHeader(b)[4] && size == GetHeader(b)[17] && facts == FactsOf(GetHeader(b))
    ensures PutHeader(facts, n, k, size) + payload == b[..|b| - 8] <==> GetHeader(b)[5] == 0 && payload == Middle(b)
  {
    PutGetHeader(b);
    Halves(PutHeader(facts, n, k, size), payload, b);
  }

  lemma SealEqual(hash: Hash, body: seq<Byte>, b: seq<Byte>)
    requires |b| == |body| + 8 && hash(b[..|b| - 8]) == Get(b[|b| - 8..])
    ensures body + Put(8, hash(body)) == b <==> body == b[..|b| - 8]
  {
    PutGet(b[|b| - 8..]);
    SplitEqual(body, Put(8, hash(body)), b);
  }

  lemma BodyIs(b: seq<Byte>, c: Content)
    requires 108 <= |b| && Readable(b) && c == Read(b) && Storable(c) && SizeOf(c) == |b|
    requires GetHeader(b)[0] == MAGIC && GetHeader(b)[1] == VERSION && GetHeader(b)[17] == |b|
    ensures Body(c) == b[..|b| - 8] <==> PaddingZero(b)
  {
    ReadBack(b, c);
    BodyBack(b, c.facts, |c.fields|, |c.keys|, SizeOf(c), Payload(c));
  }

  /** An accepted string is the stored form of what it decodes to exactly when its padding is zero. */
  lemma EncodeDecode(hash: Hash, b: seq<Byte>)
    requires Decoded(hash, b).Some?
    ensures Storable(Decoded(hash, b).value)
    ensures Encoded(hash, Decoded(hash, b).value) == b <==> PaddingZero(b)
  {
    var c := Decoded(hash, b).value;
    DecodedStorable(hash, b);
    BodyIs(b, c);
    SealEqual(hash, Body(c), b);
  }

  // ----- a second form that is accepted

  /** The stored form with a one in the header's padding, sealed again. */
  ghost function PaddedHeader(c: Content): (w: seq<Byte>)
    requires Storable(c)
    ensures |w| == 100
  {
    PaddedFits(c.facts, |c.fields|, |c.keys|, SizeOf(c), 1);
    PutNumbers(PaddedNumbers(c.facts, |c.fields|, |c.keys|, SizeOf(c), 1))
  }

  ghost function Padded(hash: Hash, c: Content): (b: seq<Byte>)
    requires Storable(c)
    ensures |b| == SizeOf(c)
  {
    PaddedHeader(c) + Payload(c) + Put(8, hash(PaddedHeader(c) + Payload(c)))
  }

  lemma PaddedParts(hash: Hash, c: Content)
    requires Storable(c)
    ensures var b, body := Padded(hash, c), PaddedHeader(c) + Payload(c);
            && |b| == SizeOf(c) && Middle(b) == Payload(c) && b[..|b| - 8] == body && b[|b| - 8..] == Put(8, hash(body))
            && var h := GetHeader(b);
               && FactsOf(h) == c.facts && h[0] == MAGIC && h[1] == VERSION
               && h[2] == |c.fields| && h[4] == |c.keys| && h[5] == 1 && h[17] == SizeOf(c)
  {
    var head, payload := PaddedHeader(c), Payload(c);
    var seal := Put(8, hash(head + payload));
    Parts(head, payload, seal);
    PaddedFacts(c.facts, |c.fields|, |c.keys|, SizeOf(c), 1);
    GetPutNumbers(PaddedNumbers(c.facts, |c.fields|, |c.keys|, SizeOf(c), 1), payload + seal);
  }

  lemma SealedIs(hash: Hash, b: seq<Byte>, h: seq<nat>, body: seq<Byte>, seal: U64)
    requires 108 <= |b| <= MAX_BYTES && h == GetHeader(b) && h[0] == MAGIC && h[1] == VERSION && h[17] == |b|
    requires b[..|b| - 8] == body && b[|b| - 8..] == Put(8, seal) && seal == hash(body)
    ensures Sealed(hash, b)
  {
    Widths();
    GetPut(8, seal);
  }

  lemma PaddedSealed(hash: Hash, c: Content)
    requires Storable(c)
    ensures Sealed(hash, Padded(hash, c))
  {
    var b, body := Padded(hash, c), PaddedHeader(c) + Payload(c);
    PaddedParts(hash, c);
    SealedIs(hash, b, GetHeader(b), body, hash(body));
  }

  lemma PaddedReads(hash: Hash, c: Content)
    requires Storable(c)
    ensures Readable(Padded(hash, c)) && Read(Padded(hash, c)) == c
  {
    var b, keys := Padded(hash, c), PutKeys(c.keys);
    PaddedParts(hash, c);
    GetPutFields(c.fields, keys);
    GetPutKeys(c.keys);
    ReadIs(b, GetHeader(b), Middle(b), keys, c);
  }

  /** Every storable snapshot has a second accepted form, different from the stored one. */
  lemma PaddedAccepted(hash: Hash, c: Content)
    requires Storable(c)
    ensures Decoded(hash, Padded(hash, c)) == Some(c) && Padded(hash, c) != Encoded(hash, c)
    ensures |Padded(hash, c)| >= 108 && !PaddingZero(Padded(hash, c))
  {
    PaddedSealed(hash, c);
    PaddedReads(hash, c);
    PaddedParts(hash, c);
    EncodeDecode(hash, Padded(hash, c));
  }

  /** Two snapshots never share a stored form. */
  lemma EncodedInjective(hash: Hash, c: Content, d: Content)
    requires Storable(c) && Storable(d) && Encoded(hash, c) == Encoded(hash, d)
    ensures c == d
  {
    DecodeEncode(hash, c);
    DecodeEncode(hash, d);
  }

  // ----- drift

  datatype Drift = NoDrift | Refreshable | Incompatible

  function Shape(f: Facts): Facts {
    f.(sourceFingerprint := 0, layoutFingerprint := 0, capturedAt := 0, validatedAt := 0, generation := 0)
  }

  /** What a stored snapshot may differ in and still be usable. */
  ghost predicate SameShape(a: Content, b: Content) {
    Shape(a.facts) == Shape(b.facts) && a.fields == b.fields && a.keys == b.keys
  }

  ghost function Compared(a: Content, b: Content): Drift {
    if !Validated(a) || !Validated(b) || !SameShape(a, b) then Incompatible
    else if a.facts.sourceFingerprint == b.facts.sourceFingerprint
            && a.facts.layoutFingerprint == b.facts.layoutFingerprint then NoDrift
    else Refreshable
  }

  /** A snapshot read back shows no drift against the one that was stored. */
  lemma NoDriftAfterRoundTrip(hash: Hash, c: Content)
    requires Storable(c)
    ensures Decoded(hash, Encoded(hash, c)).Some?
    ensures Compared(Decoded(hash, Encoded(hash, c)).value, c) == NoDrift
  {
    DecodeEncode(hash, c);
  }
}
