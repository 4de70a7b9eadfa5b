/** The snapshot object: names lie end to end in one text buffer, fields point into it. */
module MetadataSnapshot {
  import opened Options
  import opened WireLayout
  import opened Streams
  import opened MetadataWire
  import opened MetadataCodec

  datatype Status = Ok | InvalidArgument | InvalidFormat | LimitExceeded | OutOfMemory

  datatype Entry = Entry(offset: nat, length: nat, info: Info)

  const NO_FACTS := Facts(0, 0, 0, 0, 0, 0, 0, 0, 0, 0, 0, 0, 0, 0)

  class Snapshot {
    var text: seq<Byte>
    var entries: seq<Entry>
    var keys: seq<U16>
    var facts: Facts

    ghost predicate Valid()
      reads this
    {
      && |text| <= MAX_BYTES && |entries| <= MAX_FIELDS
      && forall i :: 0 <= i < |entries| ==> InText(text, entries[i])
    }

    function Fields(): (r: seq<Field>)
      reads this
      requires Valid()
      ensures |r| == |entries| && forall i :: 0 <= i < |r| ==> r[i] == FieldIn(text, entries[i])
    {
      FieldsIn(text, entries)
    }

    function Value(): Content
      reads this
      requires Valid()
    {
      Content(facts, Fields(), keys)
    }

    constructor ()
      ensures Valid() && text == [] && entries == [] && keys == [] && facts == NO_FACTS
    {
      text, entries, keys, facts := [], [], [], NO_FACTS;
    }

    /** Appends a field. `memory` says whether the allocator delivers. */
    method AddField(name: seq<Byte>, info: Info, memory: bool) returns (status: Status)
      requires Valid()
      modifies `text, `entries
      ensures Valid()
      ensures status.InvalidArgument? <==> !NameOk(name) || old(|entries|) >= MAX_FIELDS
      ensures status.Ok? <==> !status.InvalidArgument? && memory && old(|text|) + |name| <= MAX_BYTES
      ensures status.Ok? ==> Fields() == old(Fields()) + [Field(name, info)] && |text| == old(|text|) + |name|
      ensures !status.Ok? ==> unchanged(this)
    {
      if |name| == 0 || |name| > 0xffff || |entries| >= MAX_FIELDS || 0 in name { return InvalidArgument; }
      if !memory || |text| + |name| > MAX_BYTES { return OutOfMemory; }
      ghost var before := Fields();
      var entry := Entry(|text|, |name|, info);
      var longer := text + name;
      forall i | 0 <= i < |entries| ensures InText(longer, entries[i]) && FieldIn(longer, entries[i]) == before[i] {
        InLonger(text, name, entries[i]);
      }
      assert longer[entry.offset..entry.offset + entry.length] == name;
      text, entries := longer, entries + [entry];
      assert Fields() == before + [Field(name, info)];
      status := Ok;
    }

    /** Whether an earlier field has the name of field `index`. */
    method NameTaken(index: nat) returns (taken: bool)
      requires Valid() && index < |entries|
      ensures taken <==> exists prior :: 0 <= prior < index && Fields()[prior].name == Fields()[index].name
    {
      var name := FieldIn(text, entries[index]).name;
      for prior := 0 to index
        invariant forall k :: 0 <= k < prior ==> Fields()[k].name != name
      {
        if FieldIn(text, entries[prior]).name == name {
          assert Fields()[prior].name == Fields()[index].name;
          return true;
        }
      }
      taken := false;
    }

    method Validate() returns (ok: bool)
      requires Valid()
      ensures ok <==> Validated(Value())
    {
      if |entries| == 0 || facts.visibleCount == 0 || facts.visibleCount > |entries| || |keys| > MAX_KEYS { return false; }
      ghost var fields := Fields();
      for index := 0 to |entries|
        invariant forall i :: 0 <= i < index ==> NameOk(fields[i].name)
        invariant forall i, j :: 0 <= i < j < index ==> fields[i].name != fields[j].name
      {
        var name := FieldIn(text, entries[index]).name;
        assert name == fields[index].name;
        if |name| == 0 || 0 in name { return false; }
        var taken := NameTaken(index);
        if taken { return false; }
        forall i | 0 <= i < index ensures fields[i].name != fields[index].name {
          assert Fields()[i].name != Fields()[index].name;
        }
      }
      for index := 0 to |keys|
        invariant forall i :: 0 <= i < index ==> keys[i] < facts.visibleCount
      {
        if keys[index] >= facts.visibleCount { return false; }
      }
      ok := true;
    }

    // ----- storing

    /** The stored size, refused as soon as it passes the limit. */
    method Measure() returns (status: Status, size: nat)
      requires Valid() && Validated(Value())
      ensures status == if SizeOf(Value()) <= MAX_BYTES then Ok else LimitExceeded
      ensures status.Ok? ==> size == SizeOf(Value())
    {
      var total := MeasureAll(PutField, (f: Field) => 40 + |f.name|, Fields(), 108, MAX_BYTES);
      if !total.Some? || total.value + 2 * |keys| > MAX_BYTES { return LimitExceeded, 0; }
      return Ok, total.value + 2 * |keys|;
    }

    method Encode(hash: Hash, memory: bool) returns (status: Status, encoded: seq<Byte>)
      requires Valid()
      ensures status.InvalidArgument? <==> !Validated(Value())
      ensures status.LimitExceeded? <==> Validated(Value()) && SizeOf(Value()) > MAX_BYTES
      ensures status.Ok? <==> Storable(Value()) && memory
      ensures status.Ok? ==> encoded == Encoded(hash, Value())
    {
      encoded := [];
      var ok := Validate();
      if !ok { return InvalidArgument, encoded; }
      var size;
      status, size := Measure();
      if !status.Ok? { return; }
      if !memory { return OutOfMemory, encoded; }
      var payload := EncodePayload();
      encoded := PutHeader(facts, |entries|, |keys|, size) + payload;
      encoded := encoded + Put(8, hash(encoded));
    }

    method EncodePayload() returns (payload: seq<Byte>)
      requires Valid()
      ensures payload == Payload(Value())
    {
      payload := WriteAll(PutField, Fields());
      var columns := WriteKeys(keys);
      payload := payload + columns;
    }

    // ----- reading

    /** Adds the fields one after another to this fresh snapshot. */
    method AddFields(fields: seq<Field>, memory: bool) returns (ok: bool)
      requires Valid() && text == [] && entries == [] && |fields| <= MAX_FIELDS && TotalName(fields) <= MAX_BYTES
      requires forall i :: 0 <= i < |fields| ==> NameOk(fields[i].name)
      modifies `text, `entries
      ensures Valid() && (ok <==> memory || fields == []) && (ok ==> Fields() == fields)
    {
      assert fields[..0] == [];
      for index := 0 to |fields|
        invariant Valid() && Fields() == fields[..index] && |text| == TotalName(fields[..index])
        invariant index > 0 ==> memory
      {
        NextName(fields, index);
        MoreNames(fields, index + 1);
        var field := fields[index];
        assert field == Field(field.name, field.info);
        var status := AddField(field.name, field.info, memory);
        if !status.Ok? { return false; }
        assert fields[..index + 1] == fields[..index] + [field];
      }
      assert fields[..|fields|] == fields;
      ok := true;
    }

    /** Fills this fresh snapshot from a sealed byte string. */
    method ReadBody(b: seq<Byte>, h: seq<nat>, memory: bool) returns (ok: bool)
      requires 108 <= |b| <= MAX_BYTES && h == GetHeader(b) && Valid() && text == [] && entries == []
      modifies this
      ensures Valid()
      ensures ok ==> Readable(b) && Value() == Read(b) && (memory || Read(b).fields == [])
      ensures memory && !ok ==> !Readable(b)
    {
      if h[2] > MAX_FIELDS || h[4] > MAX_KEYS { return false; }
      facts := FactsOf(h);
      var fields, offset;
      ok, fields, offset := ReadAll(FirstField, b, 100, |b| - 8, h[2]);
      if ok { ok := FillFrom(b, h, fields, offset, memory); }
    }

    /** The fields that were read, and the key columns that must be all that is left. */
    method FillFrom(b: seq<Byte>, h: seq<nat>, fields: seq<Field>, offset: nat, memory: bool) returns (ok: bool)
      requires 108 <= |b| <= MAX_BYTES && h == GetHeader(b) && h[2] <= MAX_FIELDS && h[4] <= MAX_KEYS
      requires Valid() && text == [] && entries == [] && facts == FactsOf(h) && 100 <= offset <= |b| - 8
      requires GetFields(h[2], Middle(b)) == Some((fields, b[offset..|b| - 8]))
      modifies this
      ensures Valid()
      ensures ok ==> Readable(b) && Value() == Read(b) && (memory || fields == [])
      ensures memory && !ok ==> !Readable(b)
    {
      NamesOk(h[2], Middle(b));
      NamesFit(h[2], Middle(b));
      ok := AddFields(fields, memory);
      if !ok || 2 * h[4] != |b| - 8 - offset { return false; }
      var columns := b[offset..|b| - 8];
      assert |columns| % 2 == 0 by { Doubled(h[4], |columns|); }
      keys := GetKeys(columns);
      ReadIs(b, h, Middle(b), columns, Value());
    }

    /** Replaces this snapshot by the stored one, or leaves it alone. `opens` says whether the
        candidate's buffer can be set up, `memory` whether it can then grow. */
    method Decode(hash: Hash, b: seq<Byte>, opens: bool, memory: bool) returns (status: Status)
      requires Valid()
      modifies this
      ensures Valid()
      ensures status.OutOfMemory? <==> Sealed(hash, b) && !opens
      ensures status.Ok? <==> Decoded(hash, b).Some? && opens && memory
      ensures status.Ok? ==> Decoded(hash, b) == Some(Value())
      ensures !status.Ok? ==> (status.OutOfMemory? || status.InvalidFormat?) && unchanged(this)
    {
      if !Sealed(hash, b) { return InvalidFormat; }
      if !opens { return OutOfMemory; }
      var h := GetHeader(b);
      var candidate := new Snapshot();
      var ok := candidate.ReadBody(b, h, memory);
      if !ok { return InvalidFormat; }
      ok := candidate.Validate();
      if !ok { return InvalidFormat; }
      text, entries, keys, facts := candidate.text, candidate.entries, candidate.keys, candidate.facts;
      status := Ok;
    }

    // ----- comparing

    method Compare(live: Snapshot) returns (drift: Drift)
      requires Valid() && live.Valid()
      ensures drift == Compared(Value(), live.Value())
    {
      var a := Validate();
      var b := live.Validate();
      if !a || !b || Shape(facts) != Shape(live.facts) || |entries| != |live.entries| || |keys| != |live.keys| {
        return Incompatible;
      }
      for index := 0 to |entries|
        invariant forall i :: 0 <= i < index ==> Fields()[i] == live.Fields()[i]
      {
        if FieldIn(text, entries[index]) != FieldIn(live.text, live.entries[index]) {
          assert Fields()[index] != live.Fields()[index];
          return Incompatible;
        }
      }
      assert Fields() == live.Fields();
      if keys != live.keys { return Incompatible; }
      drift := if facts.sourceFingerprint == live.facts.sourceFingerprint
                  && facts.layoutFingerprint == live.facts.layoutFingerprint then NoDrift else Refreshable;
    }
  }

  method WriteKeys(keys: seq<U16>) returns (w: seq<Byte>)
    ensures w == PutKeys(keys)
  {
    w := [];
    for index := 0 to |keys|
      invariant w == PutKeys(keys[..index])
    {
      NextKey(keys, index);
      w := w + Put(2, keys[index]);
    }
    assert keys[..|keys|] == keys;
  }

  function TotalName(fields: seq<Field>): nat {
    if fields == [] then 0 else TotalName(fields[..|fields| - 1]) + |fields[|fields| - 1].name|
  }

  lemma NextName(fields: seq<Field>, index: nat)
    requires index < |fields|
    ensures TotalName(fields[..index + 1]) == TotalName(fields[..index]) + |fields[index].name|
  {
    assert fields[..index + 1][..index] == fields[..index];
  }

  lemma {:induction false} MoreNames(fields: seq<Field>, index: nat)
    requires index <= |fields|
    ensures TotalName(fields[..index]) <= TotalName(fields)
    decreases |fields| - index
  {
    if index < |fields| {
      NextName(fields, index);
      MoreNames(fields, index + 1);
    } else {
      assert fields[..index] == fields;
    }
  }

  lemma {:induction false} TotalCons(f: Field, more: seq<Field>)
    ensures TotalName([f] + more) == |f.name| + TotalName(more)
  {
    var all := [f] + more;
    if more == [] {
      assert all == [f] && all[..0] == [];
    } else {
      TotalCons(f, more[..|more| - 1]);
      assert all[..|all| - 1] == [f] + more[..|more| - 1];
    }
  }

  /** The names read from `w` are no longer than `w`. */
  lemma {:induction false} NamesFit(n: nat, w: seq<Byte>)
    requires GetFields(n, w).Some?
    ensures TotalName(GetFields(n, w).value.0) <= |w|
  {
    if n > 0 {
      var head := FirstField(w).value;
      NamesFit(n - 1, w[head.size..]);
      TotalCons(head.value, GetFields(n - 1, w[head.size..]).value.0);
    }
  }

  lemma Doubled(k: nat, n: nat)
    requires n == 2 * k
    ensures n % 2 == 0
  {
  }

  lemma NextKey(keys: seq<U16>, index: nat)
    requires index < |keys|
    ensures PutKeys(keys[..index + 1]) == PutKeys(keys[..index]) + Put(2, keys[index])
  {
    PutKeysNext(keys[..index], keys[index]);
    assert keys[..index + 1] == keys[..index] + [keys[index]];
  }

  lemma {:induction false} PutKeysNext(keys: seq<U16>, key: U16)
    ensures PutKeys(keys + [key]) == PutKeys(keys) + Put(2, key)
  {
    if keys == [] {
      assert keys + [key] == [key];
      assert PutKeys([key]) == Put(2, key) + PutKeys([key][1..]);
    } else {
      PutKeysNext(keys[1..], key);
      assert (keys + [key])[1..] == keys[1..] + [key];
    }
  }

  predicate InText(text: seq<Byte>, e: Entry) {
    e.offset + e.length <= |text| && e.length < 0x1_0000
  }

  function FieldIn(text: seq<Byte>, e: Entry): Field
    requires InText(text, e)
  {
    Field(text[e.offset..e.offset + e.length], e.info)
  }

  function FieldsIn(text: seq<Byte>, entries: seq<Entry>): (r: seq<Field>)
    requires forall i :: 0 <= i < |entries| ==> InText(text, entries[i])
    ensures |r| == |entries| && forall i :: 0 <= i < |r| ==> r[i] == FieldIn(text, entries[i])
  {
    seq(|entries|, i requires 0 <= i < |entries| && InText(text, entries[i]) => FieldIn(text, entries[i]))
  }

  lemma InLonger(text: seq<Byte>, more: seq<Byte>, e: Entry)
    requires InText(text, e)
    ensures InText(text + more, e) && FieldIn(text + more, e) == FieldIn(text, e)
  {
    assert (text + more)[e.offset..e.offset + e.length] == text[e.offset..e.offset + e.length];
  }
}
