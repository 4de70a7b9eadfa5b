/** The compiled plan that travels from xBestIndex to xFilter, and its enumerations. */
module Plans {

  const MAX_COLUMNS: nat := 1024
  const MAX_CONSTRAINTS: nat := 64
  const MAX_ORDER_TERMS: nat := 32
  const FORMAT_VERSION: nat := 2

  datatype Result<+T> = Success(value: T) | Failure(error: Error)

  datatype Error =
    | InvalidArgument
    | LimitExceeded
    | InvalidPlan
    | VersionMismatch
    | FingerprintMismatch
    | OutOfMemory

  datatype Operator =
    | Eq | Ne | Lt | Le | Gt | Ge | IsNull | IsNotNull | In | Limit | Offset
  {
    function Code(): (c: nat)
      ensures 1 <= c <= 11
    {
      match this
      case Eq => 1 case Ne => 2 case Lt => 3 case Le => 4 case Gt => 5 case Ge => 6
      case IsNull => 7 case IsNotNull => 8 case In => 9 case Limit => 10 case Offset => 11
    }

    static function FromCode(c: nat): (op: Operator)
      requires 1 <= c <= 11
      ensures op.Code() == c
    {
      match c
      case 1 => Eq case 2 => Ne case 3 => Lt case 4 => Le case 5 => Gt case 6 => Ge
      case 7 => IsNull case 8 => IsNotNull case 9 => In case 10 => Limit case _ => Offset
    }

    predicate IsWindow() {
      Limit? || Offset?
    }

    predicate IsNullTest() {
      IsNull? || IsNotNull?
    }
  }

  /** The storage class of a constraint's right-hand side, as known at planning time. */
  datatype ValueClass = Unknown | NullClass | IntegerClass | RealClass | TextClass | BlobClass
  {
    function Code(): (c: nat)
      ensures c <= 5
    {
      match this
      case Unknown => 0 case NullClass => 1 case IntegerClass => 2
      case RealClass => 3 case TextClass => 4 case BlobClass => 5
    }
  }

  function Bit(b: bool, weight: nat): nat {
    if b then weight else 0
  }

  /** The five bits of a word below 32, lowest first. */
  function LowBits(w: nat): (bool, bool, bool, bool, bool) {
    var w3 := if w >= 16 then w - 16 else w;
    var w2 := if w3 >= 8 then w3 - 8 else w3;
    var w1 := if w2 >= 4 then w2 - 4 else w2;
    var w0 := if w1 >= 2 then w1 - 2 else w1;
    (w0 >= 1, w1 >= 2, w2 >= 4, w3 >= 8, w >= 16)
  }

  /** The five plan flags. All five low bits of the wire word are assigned, so a
      word without unknown bits is a word below 32. */
  datatype PlanFlags = PlanFlags(
    orderConsumed: bool, unique: bool, hasRecheck: bool, limitConsumed: bool, offsetConsumed: bool)
  {
    function Word(): (w: nat)
      ensures w < 32 && FromWord(w) == this
    {
      Bit(orderConsumed, 1) + Bit(unique, 2) + Bit(hasRecheck, 4) + Bit(limitConsumed, 8) + Bit(offsetConsumed, 16)
    }

    static function FromWord(w: nat): PlanFlags {
      var b := LowBits(w);
      PlanFlags(b.0, b.1, b.2, b.3, b.4)
    }
  }

  /** The five constraint flags; again all five low bits are assigned. */
  datatype ConstraintFlags = ConstraintFlags(
    exact: bool, recheck: bool, isIn: bool, key: bool, nullSafe: bool)
  {
    function Word(): (w: nat)
      ensures w < 32 && FromWord(w) == this
    {
      Bit(exact, 1) + Bit(recheck, 2) + Bit(isIn, 4) + Bit(key, 8) + Bit(nullSafe, 16)
    }

    static function FromWord(w: nat): ConstraintFlags {
      var b := LowBits(w);
      ConstraintFlags(b.0, b.1, b.2, b.3, b.4)
    }
  }

  datatype PlanConstraint = PlanConstraint(
    column: int, typeOid: nat, sourceIndex: nat, argumentIndex: nat,
    flags: ConstraintFlags, operation: Operator, valueClass: nat)

  datatype OrderTerm = OrderTerm(column: nat, descending: bool, nullsFirst: bool)

  datatype Plan = Plan(
    version: nat, flags: PlanFlags, fingerprint: nat, estimatedRows: nat, estimatedCost: nat,
    projection: seq<nat>, constraints: seq<PlanConstraint>, orderTerms: seq<OrderTerm>,
    argumentCount: nat, indexPrefix: nat, indexOrdinal: nat)

  const U16: nat := 0x1_0000
  const U32: nat := 0x1_0000_0000
  const U64: nat := 0x1_0000_0000_0000_0000

  ghost predicate NoDuplicates<T>(s: seq<T>) {
    forall i, j :: 0 <= i < j < |s| ==> s[i] != s[j]
  }
}
