/** The printable plan codec: fixed little-endian records, then lower-case hex. */
module PlanCodec {
  import opened Options
  import opened Ascii
  import opened WireLayout
  import opened Plans
  import Planner
  import PlanBookkeeping

  const MAGIC: nat := 0x31535056
  const HEADER_BYTES: nat := 48
  const MAX_WIRE_BYTES: nat := HEADER_BYTES + 2 * MAX_COLUMNS + 16 * MAX_CONSTRAINTS + 4 * MAX_ORDER_TERMS

  const HEADER: seq<nat> := [4, 4, 4, 8, 8, 8, 2, 2, 2, 2, 2, 2]
  const PROJECTION: seq<nat> := [2]
  const CONSTRAINT: seq<nat> := [4, 4, 2, 2, 2, 1, 1]
  const ORDER: seq<nat> := [2, 1, 1]

  const PLAN_FORMAT := Format(HEADER, 6, [PROJECTION, CONSTRAINT, ORDER])

  lemma LayoutSizes()
    ensures Size(HEADER) == 48 && Size(PROJECTION) == 2 && Size(CONSTRAINT) == 16 && Size(ORDER) == 4
  {
  }

  // ----- field values of each record

  /** A C `int32_t` stored through `uint32_t`. */
  function ToU32(v: int): (r: nat)
    requires -0x8000_0000 <= v < 0x8000_0000
    ensures r < U32 && FromU32(r) == v
  {
    if v >= 0 then v else v + U32
  }

  function FromU32(v: nat): (r: int) {
    if v < 0x8000_0000 then v else v - U32
  }

  function HeaderFields(p: Plan): seq<nat> {
    [MAGIC, p.version, p.flags.Word(), p.fingerprint, p.estimatedRows, p.estimatedCost,
     |p.projection|, |p.constraints|, |p.orderTerms|, p.argumentCount, p.indexPrefix, p.indexOrdinal]
  }

  function ConstraintFields(c: PlanConstraint): seq<nat>
    requires -0x8000_0000 <= c.column < 0x8000_0000
  {
    [ToU32(c.column), c.typeOid, c.sourceIndex, c.argumentIndex, c.flags.Word(), c.operation.Code(), c.valueClass]
  }

  function OrderFields(t: OrderTerm): seq<nat> {
    [t.column, Bit(t.descending, 1), Bit(t.nullsFirst, 1)]
  }

  /** The plan's values fit the C types of its struct. */
  ghost predicate Typed(p: Plan) {
    && p.fingerprint < U64 && p.estimatedRows < U64 && p.estimatedCost < U64
    && p.argumentCount < U16 && p.indexPrefix < U16 && p.indexOrdinal < U16
    && (forall i :: 0 <= i < |p.projection| ==> p.projection[i] < U16)
    && (forall i :: 0 <= i < |p.constraints| ==> ConstraintFits(p.constraints[i]))
    && (forall i :: 0 <= i < |p.orderTerms| ==> p.orderTerms[i].column < U16)
  }

  /** What the encoder checks before it writes. */
  predicate Bounded(p: Plan) {
    && p.version == FORMAT_VERSION
    && |p.projection| <= MAX_COLUMNS && |p.constraints| <= MAX_CONSTRAINTS && |p.orderTerms| <= MAX_ORDER_TERMS
  }

  ghost predicate Encodable(p: Plan) {
    Typed(p) && Bounded(p)
  }

  ghost predicate ConstraintFits(c: PlanConstraint) {
    && -0x8000_0000 <= c.column < 0x8000_0000
    && c.typeOid < U32 && c.sourceIndex < U16 && c.argumentIndex < U16 && c.valueClass < 256
  }

  /** The plan's field values, record by record. */
  ghost function ImageOf(p: Plan): Image
    requires Encodable(p)
  {
    Image(HeaderFields(p), [ProjectionRows(p), ConstraintRows(p), OrderRows(p)])
  }

  function ProjectionRows(p: Plan): seq<seq<nat>> {
    seq(|p.projection|, i requires 0 <= i < |p.projection| => [p.projection[i]])
  }

  function ConstraintRows(p: Plan): seq<seq<nat>>
    requires Typed(p)
  {
    seq(|p.constraints|, i requires 0 <= i < |p.constraints| => ConstraintFields(p.constraints[i]))
  }

  function OrderRows(p: Plan): seq<seq<nat>> {
    seq(|p.orderTerms|, i requires 0 <= i < |p.orderTerms| => OrderFields(p.orderTerms[i]))
  }

  lemma ConstraintFieldsFit(c: PlanConstraint)
    requires ConstraintFits(c)
    ensures Fits(CONSTRAINT, ConstraintFields(c))
  {
    Widths();
  }

  lemma HeaderFieldsFit(p: Plan)
    requires Encodable(p)
    ensures Fits(HEADER, HeaderFields(p))
  {
    Widths();
  }

  lemma ImageOfFits(p: Plan)
    requires Encodable(p)
    ensures ImageFits(PLAN_FORMAT, ImageOf(p))
  {
    assert AllFit(PROJECTION, ProjectionRows(p)) && AllFit(ORDER, OrderRows(p)) by { Widths(); }
    assert AllFit(CONSTRAINT, ConstraintRows(p)) by {
      forall i | 0 <= i < |p.constraints| ensures Fits(CONSTRAINT, ConstraintFields(p.constraints[i])) {
        ConstraintFieldsFit(p.constraints[i]);
      }
    }
    HeaderFieldsFit(p);
    assert CountsIn(PLAN_FORMAT, HeaderFields(p)) == Counts(ImageOf(p).tables);
  }

  // ----- the wire image

  lemma ThreeExtents(a: seq<nat>, b: seq<nat>, c: seq<nat>, na: nat, nb: nat, nc: nat)
    ensures Extents([a, b, c], [na, nb, nc]) == Extent(a, na) + Extent(b, nb) + Extent(c, nc)
  {
    assert [a, b, c][1..] == [b, c] && [na, nb, nc][1..] == [nb, nc];
    assert [b, c][1..] == [c] && [nb, nc][1..] == [nc];
    assert Extents([c], [nc]) == Extent(c, nc) + Extents([], []);
    assert Extents([b, c], [nb, nc]) == Extent(b, nb) + Extents([c], [nc]);
  }

  lemma PlanExtents(np: nat, nc: nat, no: nat)
    ensures Extents([PROJECTION, CONSTRAINT, ORDER], [np, nc, no]) == 2 * np + 16 * nc + 4 * no
  {
    LayoutSizes();
    ExtentIs(PROJECTION, np);
    ExtentIs(CONSTRAINT, nc);
    ExtentIs(ORDER, no);
    ThreeExtents(PROJECTION, CONSTRAINT, ORDER, np, nc, no);
  }

  ghost function Wire(p: Plan): (w: seq<Byte>)
    requires Encodable(p)
  {
    ImageOfFits(p);
    PutImage(PLAN_FORMAT, ImageOf(p))
  }

  lemma WireSize(p: Plan)
    requires Encodable(p)
    ensures |Wire(p)| == HEADER_BYTES + 2 * |p.projection| + 16 * |p.constraints| + 4 * |p.orderTerms|
  {
    ImageOfFits(p);
    LayoutSizes();
    ThreeCounts(ImageOf(p).tables);
    PlanExtents(|p.projection|, |p.constraints|, |p.orderTerms|);
  }

  lemma ThreeCounts(tables: seq<seq<seq<nat>>>)
    requires |tables| == 3
    ensures Counts(tables) == [|tables[0]|, |tables[1]|, |tables[2]|]
  {
  }

  lemma CutWire(p: Plan)
    requires Encodable(p)
    ensures Cuttable(PLAN_FORMAT, Wire(p)) && Cut(PLAN_FORMAT, Wire(p)) == ImageOf(p)
  {
    ImageOfFits(p);
    CutPut(PLAN_FORMAT, ImageOf(p));
  }

  /** Distinct plans have distinct wire images. */
  lemma WireInjective(p: Plan, q: Plan)
    requires Encodable(p) && Encodable(q) && Wire(p) == Wire(q)
    ensures p == q
  {
    CutWire(p);
    CutWire(q);
    ImageInjective(p, q);
  }

  lemma ImageInjective(p: Plan, q: Plan)
    requires Encodable(p) && Encodable(q) && ImageOf(p) == ImageOf(q)
    ensures p == q
  {
    var h, g := HeaderFields(p), HeaderFields(q);
    assert h[2] == g[2] && h[3] == g[3] && h[4] == g[4] && h[5] == g[5] && h[9] == g[9];
    assert h[10] == g[10] && h[11] == g[11];
    var a, b := ImageOf(p).tables, ImageOf(q).tables;
    assert a[0] == ProjectionRows(p) && b[0] == ProjectionRows(q);
    forall k | 0 <= k < |p.projection| ensures p.projection[k] == q.projection[k] {
      assert ProjectionRows(p)[k][0] == ProjectionRows(q)[k][0];
    }
    assert a[1] == ConstraintRows(p) && b[1] == ConstraintRows(q);
    forall k | 0 <= k < |p.constraints| ensures p.constraints[k] == q.constraints[k] {
      ConstraintFieldsInjective(p.constraints[k], q.constraints[k], ConstraintRows(p)[k], ConstraintRows(q)[k]);
    }
    assert a[2] == OrderRows(p) && b[2] == OrderRows(q);
    forall k | 0 <= k < |p.orderTerms| ensures p.orderTerms[k] == q.orderTerms[k] {
      OrderFieldsInjective(p.orderTerms[k], q.orderTerms[k], OrderRows(p)[k], OrderRows(q)[k]);
    }
  }

  lemma OrderFieldsInjective(a: OrderTerm, b: OrderTerm, fa: seq<nat>, fb: seq<nat>)
    requires fa == OrderFields(a) && fb == OrderFields(b) && fa == fb
    ensures a == b
  {
    assert fa[0] == fb[0] && fa[1] == fb[1] && fa[2] == fb[2];
  }

  lemma ConstraintFieldsInjective(a: PlanConstraint, b: PlanConstraint, fa: seq<nat>, fb: seq<nat>)
    requires ConstraintFits(a) && ConstraintFits(b)
    requires fa == ConstraintFields(a) && fb == ConstraintFields(b) && fa == fb
    ensures a == b
  {
    assert fa[0] == fb[0] && fa[1] == fb[1] && fa[2] == fb[2] && fa[3] == fb[3];
    assert fa[4] == fb[4] && fa[5] == fb[5] && fa[6] == fb[6];
  }

  // ----- decoding

  ghost predicate PlanShaped(f: Format) {
    && |f.header| == 12 && f.counts == 6 && |f.tables| == 3
    && |f.tables[0]| == 1 && |f.tables[1]| == 7 && |f.tables[2]| == 3
  }

  predicate ConstraintAccepted(f: seq<nat>, argumentCount: nat)
    requires |f| == 7
  {
    && f[4] < 32
    && 1 <= f[5] <= 11
    && f[3] <= argumentCount
    && (FromU32(f[0]) >= 0 || Operator.FromCode(f[5]).IsWindow())
    && FromU32(f[0]) < MAX_COLUMNS
  }

  function ToConstraint(f: seq<nat>, argumentCount: nat): PlanConstraint
    requires |f| == 7 && ConstraintAccepted(f, argumentCount)
  {
    PlanConstraint(FromU32(f[0]), f[1], f[2], f[3], ConstraintFlags.FromWord(f[4]), Operator.FromCode(f[5]), f[6])
  }

  predicate OrderAccepted(f: seq<nat>)
    requires |f| == 3
  {
    f[0] < MAX_COLUMNS && f[1] <= 1 && f[2] <= 1
  }

  function ToOrder(f: seq<nat>): OrderTerm
    requires |f| == 3
  {
    OrderTerm(f[0], f[1] == 1, f[2] == 1)
  }

  ghost predicate ImageAccepted(f: Format, i: Image)
    requires ImageFits(f, i) && PlanShaped(f)
  {
    && ProjectionAccepted(i.tables[0])
    && ConstraintsAccepted(i.tables[1], i.header[9])
    && OrderTermsAccepted(i.tables[2])
    && i.header[4] != 0 && i.header[5] != 0
    && (PlanFlags.FromWord(i.header[2]).orderConsumed <==> i.header[8] != 0)
  }

  ghost predicate Wide(rows: seq<seq<nat>>, n: nat) {
    forall k :: 0 <= k < |rows| ==> |rows[k]| == n
  }

  ghost predicate ProjectionAccepted(rows: seq<seq<nat>>) {
    && Wide(rows, 1)
    && (forall k :: 0 <= k < |rows| ==> rows[k][0] < MAX_COLUMNS)
    && (forall k, l :: 0 <= k < l < |rows| ==> rows[k][0] != rows[l][0])
  }

  ghost predicate ConstraintsAccepted(rows: seq<seq<nat>>, argumentCount: nat) {
    Wide(rows, 7) && forall k :: 0 <= k < |rows| ==> ConstraintAccepted(rows[k], argumentCount)
  }

  ghost predicate OrderTermsAccepted(rows: seq<seq<nat>>) {
    Wide(rows, 3) && forall k :: 0 <= k < |rows| ==> OrderAccepted(rows[k])
  }

  ghost function ToPlan(h: seq<nat>, projection: seq<seq<nat>>, constraints: seq<seq<nat>>, orders: seq<seq<nat>>): Plan
    requires |h| == 12 && ProjectionAccepted(projection)
    requires ConstraintsAccepted(constraints, h[9]) && OrderTermsAccepted(orders)
  {
    Plan(h[1], PlanFlags.FromWord(h[2]), h[3], h[4], h[5],
         ToProjection(projection), ToConstraints(constraints, h[9]), ToOrderTerms(orders), h[9], h[10], h[11])
  }

  ghost function ToProjection(rows: seq<seq<nat>>): seq<nat>
    requires Wide(rows, 1)
  {
    seq(|rows|, k requires 0 <= k < |rows| => rows[k][0])
  }

  ghost function ToConstraints(rows: seq<seq<nat>>, argumentCount: nat): seq<PlanConstraint>
    requires ConstraintsAccepted(rows, argumentCount)
  {
    seq(|rows|, k requires 0 <= k < |rows| => ToConstraint(rows[k], argumentCount))
  }

  ghost function ToOrderTerms(rows: seq<seq<nat>>): seq<OrderTerm>
    requires Wide(rows, 3)
  {
    seq(|rows|, k requires 0 <= k < |rows| => ToOrder(rows[k]))
  }

  ghost function DecodedImage(f: Format, w: seq<Byte>, expectedFingerprint: nat): Result<Plan>
    requires PlanShaped(f) && Size(f.header) <= |w|
  {
    var h := GetRecord(f.header, w[..Size(f.header)]);
    if h[0] != MAGIC then Failure(InvalidPlan)
    else if h[1] != FORMAT_VERSION then Failure(VersionMismatch)
    else if h[2] >= 32 then Failure(InvalidPlan)
    else if h[3] != expectedFingerprint then Failure(FingerprintMismatch)
    else if h[6] > MAX_COLUMNS || h[7] > MAX_CONSTRAINTS || h[8] > MAX_ORDER_TERMS || h[9] > MAX_CONSTRAINTS
    then Failure(LimitExceeded)
    else if !Cuttable(f, w) then Failure(InvalidPlan)
    else if !ImageAccepted(f, Cut(f, w)) then Failure(InvalidPlan)
    else
      var i := Cut(f, w);
      Success(ToPlan(i.header, i.tables[0], i.tables[1], i.tables[2]))
  }

  ghost function DecodedWire(w: seq<Byte>, expectedFingerprint: nat): Result<Plan>
    requires |w| >= HEADER_BYTES
  {
    LayoutSizes();
    DecodedImage(PLAN_FORMAT, w, expectedFingerprint)
  }

  /** The checks the decoder makes, said of the plan rather than of the bytes. */
  ghost predicate Decodable(p: Plan) {
    && Encodable(p)
    && p.argumentCount <= MAX_CONSTRAINTS
    && NoDuplicates(p.projection)
    && (forall i :: 0 <= i < |p.projection| ==> p.projection[i] < MAX_COLUMNS)
    && (forall i :: 0 <= i < |p.constraints| ==>
          && p.constraints[i].argumentIndex <= p.argumentCount
          && (p.constraints[i].column >= 0 || p.constraints[i].operation.IsWindow())
          && p.constraints[i].column < MAX_COLUMNS)
    && (forall i :: 0 <= i < |p.orderTerms| ==> p.orderTerms[i].column < MAX_COLUMNS)
    && p.estimatedRows != 0 && p.estimatedCost != 0
    && (p.flags.orderConsumed <==> p.orderTerms != [])
  }

  lemma DecodeEncodeWire(p: Plan)
    requires Decodable(p)
    ensures |Wire(p)| >= HEADER_BYTES && DecodedWire(Wire(p), p.fingerprint) == Success(p)
  {
    WireSize(p);
    CutWire(p);
    DecodeCut(PLAN_FORMAT, p, Wire(p));
  }

  lemma DecodeCut(f: Format, p: Plan, w: seq<Byte>)
    requires Decodable(p) && PlanShaped(f) && Cuttable(f, w) && Cut(f, w) == ImageOf(p)
    ensures DecodedImage(f, w, p.fingerprint) == Success(p)
  {
    DecodableRows(p);
    assert GetRecord(f.header, w[..Size(f.header)]) == HeaderFields(p);
  }

  lemma DecodableRows(p: Plan)
    requires Decodable(p)
    ensures ProjectionAccepted(ProjectionRows(p)) && OrderTermsAccepted(OrderRows(p))
    ensures ConstraintsAccepted(ConstraintRows(p), p.argumentCount)
    ensures ToPlan(HeaderFields(p), ProjectionRows(p), ConstraintRows(p), OrderRows(p)) == p
  {
    forall k | 0 <= k < |p.constraints|
      ensures ConstraintAccepted(ConstraintFields(p.constraints[k]), p.argumentCount)
      ensures ToConstraint(ConstraintFields(p.constraints[k]), p.argumentCount) == p.constraints[k]
    {
      ConstraintRoundTrip(p.constraints[k], p.argumentCount);
    }
    forall k | 0 <= k < |p.orderTerms|
      ensures OrderAccepted(OrderFields(p.orderTerms[k])) && ToOrder(OrderFields(p.orderTerms[k])) == p.orderTerms[k]
    {
    }
  }

  lemma ConstraintRoundTrip(c: PlanConstraint, argumentCount: nat)
    requires ConstraintFits(c) && c.argumentIndex <= argumentCount
    requires (c.column >= 0 || c.operation.IsWindow()) && c.column < MAX_COLUMNS
    ensures ConstraintAccepted(ConstraintFields(c), argumentCount)
    ensures ToConstraint(ConstraintFields(c), argumentCount) == c
  {
  }

  /** Whatever wire image is accepted is the image of the plan it decodes to. */
  lemma EncodeDecodeWire(w: seq<Byte>, expectedFingerprint: nat, p: Plan)
    requires |w| >= HEADER_BYTES && DecodedWire(w, expectedFingerprint) == Success(p)
    ensures Decodable(p) && p.fingerprint == expectedFingerprint && Wire(p) == w
  {
    LayoutSizes();
    CutAccepted(PLAN_FORMAT, w, expectedFingerprint, p);
    AcceptedImage(Cut(PLAN_FORMAT, w), p);
    WireBack(w, p);
  }

  lemma WireBack(w: seq<Byte>, p: Plan)
    requires Encodable(p) && Cuttable(PLAN_FORMAT, w) && ImageOf(p) == Cut(PLAN_FORMAT, w)
    ensures Wire(p) == w
  {
    ImageOfFits(p);
    PutCut(PLAN_FORMAT, w);
  }

  lemma CutAccepted(f: Format, w: seq<Byte>, expectedFingerprint: nat, p: Plan)
    requires PlanShaped(f) && Size(f.header) <= |w| && DecodedImage(f, w, expectedFingerprint) == Success(p)
    ensures Cuttable(f, w) && ImageAccepted(f, Cut(f, w)) && p.fingerprint == expectedFingerprint
    ensures var i := Cut(f, w);
            && p == ToPlan(i.header, i.tables[0], i.tables[1], i.tables[2])
            && i.header[0] == MAGIC && i.header[1] == FORMAT_VERSION && i.header[2] < 32
            && i.header[6] <= MAX_COLUMNS && i.header[7] <= MAX_CONSTRAINTS
            && i.header[8] <= MAX_ORDER_TERMS && i.header[9] <= MAX_CONSTRAINTS
  {
  }

  lemma AcceptedImage(i: Image, p: Plan)
    requires ImageFits(PLAN_FORMAT, i) && ImageAccepted(PLAN_FORMAT, i)
    requires p == ToPlan(i.header, i.tables[0], i.tables[1], i.tables[2])
    requires i.header[0] == MAGIC && i.header[1] == FORMAT_VERSION && i.header[2] < 32
    requires i.header[6] <= MAX_COLUMNS && i.header[7] <= MAX_CONSTRAINTS
    requires i.header[8] <= MAX_ORDER_TERMS && i.header[9] <= MAX_CONSTRAINTS
    ensures Decodable(p) && ImageOf(p) == i
  {
    var h, np, nc, no := i.header, |i.tables[0]|, |i.tables[1]|, |i.tables[2]|;
    assert CountsIn(PLAN_FORMAT, h)[0] == np && CountsIn(PLAN_FORMAT, h)[1] == nc && CountsIn(PLAN_FORMAT, h)[2] == no;
    AcceptedRows(h, i.tables[0], i.tables[1], i.tables[2], p);
    assert i.tables == [i.tables[0], i.tables[1], i.tables[2]];
  }

  lemma HeaderRanges(h: seq<nat>)
    requires Fits(HEADER, h)
    ensures |h| == 12 && h[3] < U64 && h[4] < U64 && h[5] < U64 && h[10] < U16 && h[11] < U16
  {
    Widths();
    assert HEADER[3] == 8 && HEADER[4] == 8 && HEADER[5] == 8 && HEADER[10] == 2 && HEADER[11] == 2;
  }

  lemma AcceptedRows(h: seq<nat>, pr: seq<seq<nat>>, cr: seq<seq<nat>>, or: seq<seq<nat>>, p: Plan)
    requires Fits(HEADER, h) && AllFit(CONSTRAINT, cr)
    requires ProjectionAccepted(pr) && ConstraintsAccepted(cr, h[9]) && OrderTermsAccepted(or)
    requires h[0] == MAGIC && h[1] == FORMAT_VERSION && h[2] < 32 && h[4] != 0 && h[5] != 0
    requires h[6] == |pr| <= MAX_COLUMNS && h[7] == |cr| <= MAX_CONSTRAINTS
    requires h[8] == |or| <= MAX_ORDER_TERMS && h[9] <= MAX_CONSTRAINTS
    requires PlanFlags.FromWord(h[2]).orderConsumed <==> h[8] != 0
    requires p == ToPlan(h, pr, cr, or)
    ensures Decodable(p)
    ensures HeaderFields(p) == h && ProjectionRows(p) == pr && ConstraintRows(p) == cr && OrderRows(p) == or
  {
    HeaderRanges(h);
    FlagWordImage(h[2]);
    forall k | 0 <= k < |cr|
      ensures ConstraintFits(p.constraints[k]) && ConstraintFields(p.constraints[k]) == cr[k]
    {
      ConstraintImage(cr[k], h[9]);
    }
    forall k | 0 <= k < |or| ensures OrderFields(p.orderTerms[k]) == or[k] {
      assert OrderAccepted(or[k]);
    }
    forall k | 0 <= k < |pr| ensures [p.projection[k]] == pr[k] {
      assert |pr[k]| == 1;
    }
  }

  lemma ConstraintImage(f: seq<nat>, argumentCount: nat)
    requires |f| == 7 && Fits(CONSTRAINT, f) && ConstraintAccepted(f, argumentCount)
    ensures ConstraintFits(ToConstraint(f, argumentCount))
    ensures ConstraintFields(ToConstraint(f, argumentCount)) == f
  {
    Widths();
    assert f[0] < U32 && f[1] < U32 && f[2] < U16 && f[3] < U16 && f[6] < 256;
    FlagWordImage(f[4]);
  }

  lemma FlagWordImage(w: nat)
    requires w < 32
    ensures ConstraintFlags.FromWord(w).Word() == w && PlanFlags.FromWord(w).Word() == w
  {
  }

  // ----- hex

  function HexDigit(v: nat): (c: char)
    requires v < 16
    ensures HexValue(c) == Some(v) && Lower(c) == c
  {
    if v < 10 then ('0' as int + v) as char else ('a' as int + v - 10) as char
  }

  function HexValue(c: char): (v: Option<nat>)
    ensures v.Some? ==> v.value < 16
  {
    if '0' <= c <= '9' then Some(c as int - '0' as int)
    else if 'a' <= c <= 'f' then Some(c as int - 'a' as int + 10)
    else if 'A' <= c <= 'F' then Some(c as int - 'A' as int + 10)
    else None
  }

  function LowerAll(s: string): (r: string)
    ensures |r| == |s|
  {
    seq(|s|, i requires 0 <= i < |s| => Lower(s[i]))
  }

  function Hex(w: seq<Byte>): (s: string)
    ensures |s| == 2 * |w|
  {
    if w == [] then "" else Hex(w[..|w| - 1]) + HexPair(w[|w| - 1])
  }

  function HexPair(b: Byte): (s: string)
    ensures |s| == 2 && UnhexPair(s[0], s[1]) == Some(b)
  {
    [HexDigit(b / 16), HexDigit(b % 16)]
  }

  function UnhexPair(high: char, low: char): (b: Option<Byte>) {
    var h, l := HexValue(high), HexValue(low);
    if h.Some? && l.Some? then Some(h.value * 16 + l.value) else None
  }

  lemma HexDigitOf(c: char)
    requires HexValue(c).Some?
    ensures HexDigit(HexValue(c).value) == Lower(c)
  {
  }

  lemma HexPairOf(high: char, low: char)
    requires UnhexPair(high, low).Some?
    ensures HexPair(UnhexPair(high, low).value) == [Lower(high), Lower(low)]
  {
    HexDigitOf(high);
    HexDigitOf(low);
    NibblesOf(HexValue(high).value, HexValue(low).value);
  }

  lemma NibblesOf(high: nat, low: nat)
    requires high < 16 && low < 16
    ensures (high * 16 + low) / 16 == high && (high * 16 + low) % 16 == low
  {
  }

  function Unhex(s: string): (w: Option<seq<Byte>>)
    requires |s| % 2 == 0
    ensures w.Some? ==> |w.value| == |s| / 2
  {
    if s == "" then Some([])
    else
      var n := |s| - 2;
      var front, last := Unhex(s[..n]), UnhexPair(s[n], s[n + 1]);
      if front.Some? && last.Some? then Some(front.value + [last.value]) else None
  }

  lemma {:induction false} UnhexHex(w: seq<Byte>)
    ensures Unhex(Hex(w)) == Some(w)
  {
    if w != [] {
      var n := |w| - 1;
      UnhexHex(w[..n]);
      var s := Hex(w);
      assert s[..2 * n] == Hex(w[..n]);
      assert s[2 * n] == HexPair(w[n])[0] && s[2 * n + 1] == HexPair(w[n])[1];
      assert w == w[..n] + [w[n]];
    }
  }

  lemma {:induction false} HexUnhex(s: string)
    requires |s| % 2 == 0 && Unhex(s).Some?
    ensures Hex(Unhex(s).value) == LowerAll(s)
  {
    if s != "" {
      var n := |s| - 2;
      HexUnhex(s[..n]);
      var w := Unhex(s).value;
      assert w[..|w| - 1] == Unhex(s[..n]).value;
      HexPairOf(s[n], s[n + 1]);
      assert LowerAll(s) == LowerAll(s[..n]) + [Lower(s[n]), Lower(s[n + 1])];
    }
  }

  // ----- the codec

  ghost function Decoded(encoded: string, expectedFingerprint: nat): Result<Plan> {
    if |encoded| == 0 || |encoded| > 2 * MAX_WIRE_BYTES || |encoded| % 2 != 0 || |encoded| / 2 < HEADER_BYTES
    then Failure(InvalidPlan)
    else
      match Unhex(encoded)
      case None => Failure(InvalidPlan)
      case Some(w) => DecodedWire(w, expectedFingerprint)
  }

  ghost function Encoded(p: Plan): string
    requires Encodable(p)
  {
    Hex(Wire(p))
  }

  lemma DecodeEncode(p: Plan)
    requires Decodable(p)
    ensures Decoded(Encoded(p), p.fingerprint) == Success(p)
  {
    UnhexHex(Wire(p));
    WireSize(p);
    DecodeEncodeWire(p);
  }

  /** Every accepted string re-encodes to its own lower-case form. */
  lemma EncodeDecode(encoded: string, expectedFingerprint: nat, p: Plan)
    requires Decoded(encoded, expectedFingerprint) == Success(p)
    ensures Decodable(p) && p.fingerprint == expectedFingerprint && Encoded(p) == LowerAll(encoded)
  {
    var w := Unhex(encoded).value;
    EncodeDecodeWire(w, expectedFingerprint, p);
    HexUnhex(encoded);
  }

  lemma EncodedInjective(p: Plan, q: Plan)
    requires Encodable(p) && Encodable(q) && Encoded(p) == Encoded(q)
    ensures p == q
  {
    UnhexHex(Wire(p));
    UnhexHex(Wire(q));
    WireInjective(p, q);
  }

  // ----- compiled plans are decodable

  /** The C types of a request's numbers. */
  ghost predicate TypedRequest(r: Planner.Request) {
    && r.fingerprint < U64 && r.baseRows < U64
    && (forall i :: 0 <= i < |r.columns| ==> r.columns[i].typeOid < U32)
    && (forall i :: 0 <= i < |r.constraints| ==> r.constraints[i].sourceIndex < U16)
  }

  lemma {:induction false} FiltersDecodable(r: Planner.Request, n: nat)
    requires TypedRequest(r) && Planner.ValidRequest(r) && n <= |r.constraints|
    ensures forall k :: 0 <= k < |Planner.Filters(r, n)| ==>
      var c := Planner.Filters(r, n)[k]; 0 <= c.column < MAX_COLUMNS && ConstraintFits(c)
  {
    if n > 0 { FiltersDecodable(r, n - 1); }
  }

  lemma {:induction false} WindowsDecodable(r: Planner.Request, n: nat)
    requires TypedRequest(r) && Planner.ValidRequest(r) && n <= |r.constraints|
    ensures forall k :: 0 <= k < |Planner.Windows(r, n)| ==>
      var c := Planner.Windows(r, n)[k]; c.operation.IsWindow() && c.column == -1 && ConstraintFits(c)
  {
    if n > 0 { WindowsDecodable(r, n - 1); }
  }

  lemma ArgumentWithin(r: Planner.Request, p: Plan, k: nat)
    requires Planner.Compiled(r) == Success(p) && k < |p.constraints|
    ensures p.constraints[k].argumentIndex <= p.argumentCount <= MAX_CONSTRAINTS
    ensures |p.constraints| <= MAX_CONSTRAINTS
  {
    PlanBookkeeping.ArgumentsAreNumberedInOrder(r, p);
    PlanBookkeeping.ArgumentIndexesBounded(p.constraints);
    if p.constraints[k].argumentIndex != 0 {
      assert p.constraints[k].argumentIndex in PlanBookkeeping.UpTo(p.argumentCount);
    }
  }

  lemma RowsFit(r: Planner.Request, p: Plan)
    requires TypedRequest(r) && Planner.Compiled(r) == Success(p)
    ensures 0 < p.estimatedRows < U64 && 0 < p.estimatedCost < U64
  {
    PlanBookkeeping.EstimateIs(r, p);
  }

  lemma ConstraintsDecodable(r: Planner.Request, p: Plan)
    requires TypedRequest(r) && Planner.Compiled(r) == Success(p)
    ensures |p.constraints| <= MAX_CONSTRAINTS && p.argumentCount <= MAX_CONSTRAINTS
    ensures forall k :: 0 <= k < |p.constraints| ==> ConstraintFits(p.constraints[k])
    ensures forall k :: 0 <= k < |p.constraints| ==>
      && p.constraints[k].argumentIndex <= p.argumentCount
      && (p.constraints[k].column >= 0 || p.constraints[k].operation.IsWindow())
      && p.constraints[k].column < MAX_COLUMNS
  {
    var n := |r.constraints|;
    FiltersDecodable(r, n);
    WindowsDecodable(r, n);
    PlanBookkeeping.ArgumentsAreNumberedInOrder(r, p);
    forall k | 0 <= k < |p.constraints| ensures p.constraints[k].argumentIndex <= p.argumentCount {
      ArgumentWithin(r, p, k);
    }
  }

  lemma ColumnsDecodable(r: Planner.Request, p: Plan)
    requires TypedRequest(r) && Planner.Compiled(r) == Success(p)
    ensures NoDuplicates(p.projection) && |p.projection| <= MAX_COLUMNS && |p.orderTerms| <= MAX_ORDER_TERMS
    ensures forall k :: 0 <= k < |p.projection| ==> p.projection[k] < MAX_COLUMNS
    ensures forall k :: 0 <= k < |p.orderTerms| ==> p.orderTerms[k].column < MAX_COLUMNS
  {
    PlanBookkeeping.ProjectionCoversThePlan(r, p);
    forall k | 0 <= k < |p.projection| ensures p.projection[k] < MAX_COLUMNS {
      assert p.projection[k] in p.projection;
    }
    forall k | 0 <= k < |p.orderTerms| ensures p.orderTerms[k].column < MAX_COLUMNS {
      assert p.orderTerms[k].column in p.projection;
    }
  }

  /** Every compiled plan passes every check the decoder makes, so it round-trips. */
  lemma CompiledPlansRoundTrip(r: Planner.Request, p: Plan)
    requires TypedRequest(r) && Planner.Compiled(r) == Success(p)
    ensures Decodable(p)
    ensures Decoded(Encoded(p), r.fingerprint) == Success(p)
  {
    CompiledDecodable(r, p);
    DecodeEncode(p);
    assert p.fingerprint == r.fingerprint;
  }

  lemma CompiledDecodable(r: Planner.Request, p: Plan)
    requires TypedRequest(r) && Planner.Compiled(r) == Success(p)
    ensures Decodable(p)
  {
    RowsFit(r, p);
    HeadFits(r, p);
    ConstraintsDecodable(r, p);
    ColumnsDecodable(r, p);
  }

  lemma HeadFits(r: Planner.Request, p: Plan)
    requires TypedRequest(r) && Planner.Compiled(r) == Success(p)
    ensures p.version == FORMAT_VERSION && p.fingerprint < U64 && p.indexPrefix < U16 && p.indexOrdinal < U16
    ensures p.flags.orderConsumed <==> p.orderTerms != []
  {
  }
}
