/** The codec's two operations as the source runs them: loops over a wire buffer. */
module PlanCodecMethods {
  import opened Options
  import opened WireLayout
  import opened Plans
  import opened PlanCodec
  import opened Concatenation

  method AppendRows(layout: seq<nat>, rows: seq<seq<nat>>, wire: seq<Byte>) returns (w: seq<Byte>)
    requires AllFit(layout, rows)
    ensures w == wire + PutTable(layout, rows)
  {
    w := wire;
    for index := 0 to |rows|
      invariant w == wire + PutTable(layout, rows[..index])
    {
      TableNext(layout, rows, index, wire);
      w := w + PutRecord(layout, rows[index]);
    }
    assert rows[..|rows|] == rows;
  }

  lemma TableNext(layout: seq<nat>, rows: seq<seq<nat>>, index: nat, wire: seq<Byte>)
    requires AllFit(layout, rows) && index < |rows|
    ensures wire + PutTable(layout, rows[..index + 1]) == wire + PutTable(layout, rows[..index]) + PutRecord(layout, rows[index])
  {
    assert rows[..index + 1][..index] == rows[..index];
    Assoc(wire, PutTable(layout, rows[..index]), PutRecord(layout, rows[index]));
  }

  lemma ThreeTables(layouts: seq<seq<nat>>, tables: seq<seq<seq<nat>>>)
    requires TablesFit(layouts, tables) && |layouts| == 3
    ensures PutTables(layouts, tables) ==
            PutTable(layouts[0], tables[0]) + PutTable(layouts[1], tables[1]) + PutTable(layouts[2], tables[2])
  {
    var l1, t1 := layouts[1..], tables[1..];
    var l2, t2 := l1[1..], t1[1..];
    PutTablesNext(layouts, tables);
    PutTablesNext(l1, t1);
    PutTablesNext(l2, t2);
    assert PutTables(l2[1..], t2[1..]) == [];
    Assoc(PutTable(layouts[0], tables[0]), PutTable(layouts[1], tables[1]), PutTable(layouts[2], tables[2]));
  }

  method AppendImage(f: Format, header: seq<nat>, tables: seq<seq<seq<nat>>>) returns (wire: seq<Byte>)
    requires |f.tables| == 3 && ImageFits(f, Image(header, tables))
    ensures wire == PutImage(f, Image(header, tables))
  {
    wire := PutRecord(f.header, header);
    wire := AppendRows(f.tables[0], tables[0], wire);
    wire := AppendRows(f.tables[1], tables[1], wire);
    wire := AppendRows(f.tables[2], tables[2], wire);
    ThreeTables(f.tables, tables);
    Associate(PutRecord(f.header, header), PutTable(f.tables[0], tables[0]),
              PutTable(f.tables[1], tables[1]), PutTable(f.tables[2], tables[2]));
  }

  lemma Associate<T>(a: seq<T>, b: seq<T>, c: seq<T>, d: seq<T>)
    ensures a + b + c + d == a + (b + c + d)
  {
  }

  method AppendHex(wire: seq<Byte>) returns (text: string)
    ensures text == Hex(wire)
  {
    text := "";
    for index := 0 to |wire|
      invariant text == Hex(wire[..index])
    {
      text := text + HexPair(wire[index]);
      assert wire[..index + 1][..index] == wire[..index];
    }
    assert wire[..|wire|] == wire;
  }

  /** `allocates` is the allocator's answer to the single reservation. */
  method Encode(p: Plan, allocates: bool) returns (result: Result<string>)
    requires Typed(p)
    ensures !Bounded(p) ==> result == Failure(InvalidArgument)
    ensures Bounded(p) && !allocates ==> result == Failure(OutOfMemory)
    ensures Bounded(p) && allocates ==> result == Success(Encoded(p))
  {
    if !Bounded(p) { return Failure(InvalidArgument); }
    ImageOfFits(p);
    var wire := AppendImage(PLAN_FORMAT, HeaderFields(p), [ProjectionRows(p), ConstraintRows(p), OrderRows(p)]);
    if !allocates { return Failure(OutOfMemory); }
    var text := AppendHex(wire);
    result := Success(text);
  }

  lemma {:induction false} UnhexFailureIsFinal(s: string, n: nat)
    requires |s| % 2 == 0 && 2 * n <= |s| && Unhex(s[..2 * n]).None?
    ensures Unhex(s).None?
    decreases |s|
  {
    if 2 * n == |s| {
      assert s[..2 * n] == s;
    } else {
      var front := s[..|s| - 2];
      assert front[..2 * n] == s[..2 * n];
      UnhexFailureIsFinal(front, n);
    }
  }

  method DecodeHex(encoded: string) returns (wire: Option<seq<Byte>>)
    requires |encoded| % 2 == 0
    ensures wire == Unhex(encoded)
  {
    var w: seq<Byte> := [];
    for index := 0 to |encoded| / 2
      invariant Unhex(encoded[..2 * index]) == Some(w)
    {
      var pair := UnhexPair(encoded[2 * index], encoded[2 * index + 1]);
      ghost var prefix := encoded[..2 * (index + 1)];
      assert prefix[..2 * index] == encoded[..2 * index];
      if pair.None? {
        UnhexFailureIsFinal(encoded, index + 1);
        return None;
      }
      w := w + [pair.value];
    }
    assert encoded[..2 * (|encoded| / 2)] == encoded;
    wire := Some(w);
  }

  /** Each column number is compared with all the earlier ones. */
  method DecodeProjection(rows: seq<seq<nat>>) returns (projection: Option<seq<nat>>)
    requires Wide(rows, 1)
    ensures projection.Some? <==> ProjectionAccepted(rows)
    ensures projection.Some? ==> projection.value == ToProjection(rows)
  {
    var p: seq<nat> := [];
    for index := 0 to |rows|
      invariant |p| == index && forall k :: 0 <= k < index ==> p[k] == rows[k][0] < MAX_COLUMNS
      invariant forall k, l :: 0 <= k < l < index ==> rows[k][0] != rows[l][0]
    {
      var column := rows[index][0];
      if column >= MAX_COLUMNS { return None; }
      for previous := 0 to index
        invariant forall k :: 0 <= k < previous ==> rows[k][0] != column
      {
        if p[previous] == column { return None; }
      }
      p := p + [column];
    }
    projection := Some(p);
  }

  method DecodeConstraints(rows: seq<seq<nat>>, argumentCount: nat) returns (constraints: Option<seq<PlanConstraint>>)
    requires Wide(rows, 7)
    ensures constraints.Some? <==> ConstraintsAccepted(rows, argumentCount)
    ensures constraints.Some? ==> constraints.value == ToConstraints(rows, argumentCount)
  {
    var cs: seq<PlanConstraint> := [];
    for index := 0 to |rows|
      invariant |cs| == index
      invariant forall k :: 0 <= k < index ==>
        ConstraintAccepted(rows[k], argumentCount) && cs[k] == ToConstraint(rows[k], argumentCount)
    {
      if !ConstraintAccepted(rows[index], argumentCount) { return None; }
      cs := cs + [ToConstraint(rows[index], argumentCount)];
    }
    constraints := Some(cs);
  }

  method DecodeOrderTerms(rows: seq<seq<nat>>) returns (terms: Option<seq<OrderTerm>>)
    requires Wide(rows, 3)
    ensures terms.Some? <==> OrderTermsAccepted(rows)
    ensures terms.Some? ==> terms.value == ToOrderTerms(rows)
  {
    var ts: seq<OrderTerm> := [];
    for index := 0 to |rows|
      invariant |ts| == index
      invariant forall k :: 0 <= k < index ==> OrderAccepted(rows[k]) && ts[k] == ToOrder(rows[k])
    {
      if !OrderAccepted(rows[index]) { return None; }
      ts := ts + [ToOrder(rows[index])];
    }
    terms := Some(ts);
  }

  method DecodeRecords(f: Format, i: Image) returns (result: Result<Plan>)
    requires PlanShaped(f) && ImageFits(f, i)
    ensures result == if ImageAccepted(f, i) then Success(ToPlan(i.header, i.tables[0], i.tables[1], i.tables[2]))
                      else Failure(InvalidPlan)
  {
    assert AllFit(f.tables[0], i.tables[0]) && AllFit(f.tables[1], i.tables[1]) && AllFit(f.tables[2], i.tables[2]);
    var h := i.header;
    var projection := DecodeProjection(i.tables[0]);
    if projection.None? { return Failure(InvalidPlan); }
    var constraints := DecodeConstraints(i.tables[1], h[9]);
    if constraints.None? { return Failure(InvalidPlan); }
    var orderTerms := DecodeOrderTerms(i.tables[2]);
    if orderTerms.None? { return Failure(InvalidPlan); }
    var flags := PlanFlags.FromWord(h[2]);
    if h[4] == 0 || h[5] == 0 || flags.orderConsumed != (h[8] != 0) { return Failure(InvalidPlan); }
    result := Success(Plan(h[1], flags, h[3], h[4], h[5], projection.value, constraints.value, orderTerms.value, h[9], h[10], h[11]));
  }

  method DecodeWire(f: Format, wire: seq<Byte>, expectedFingerprint: nat) returns (result: Result<Plan>)
    requires PlanShaped(f) && Size(f.header) <= |wire|
    ensures result == DecodedImage(f, wire, expectedFingerprint)
  {
    var h := GetRecord(f.header, wire[..Size(f.header)]);
    if h[0] != MAGIC { return Failure(InvalidPlan); }
    if h[1] != FORMAT_VERSION { return Failure(VersionMismatch); }
    if h[2] >= 32 { return Failure(InvalidPlan); }
    if h[3] != expectedFingerprint { return Failure(FingerprintMismatch); }
    if h[6] > MAX_COLUMNS || h[7] > MAX_CONSTRAINTS || h[8] > MAX_ORDER_TERMS || h[9] > MAX_CONSTRAINTS {
      return Failure(LimitExceeded);
    }
    if !Cuttable(f, wire) { return Failure(InvalidPlan); }
    result := DecodeRecords(f, Cut(f, wire));
  }

  method Decode(encoded: string, expectedFingerprint: nat) returns (result: Result<Plan>)
    ensures result == Decoded(encoded, expectedFingerprint)
  {
    if |encoded| == 0 || |encoded| > 2 * MAX_WIRE_BYTES || |encoded| % 2 != 0 { return Failure(InvalidPlan); }
    if |encoded| / 2 < HEADER_BYTES { return Failure(InvalidPlan); }
    var wire := DecodeHex(encoded);
    if wire.None? { return Failure(InvalidPlan); }
    LayoutSizes();
    result := DecodeWire(PLAN_FORMAT, wire.value, expectedFingerprint);
  }
}
