/** The pushdown compiler: a SQLite constraint/order request becomes a plan. */
module Planner {
  import opened Options
  import opened Plans

  datatype Capabilities = Capabilities(equality: bool, order: bool, exact: bool, binary: bool)
  datatype Column = Column(typeOid: nat, capabilities: Capabilities)

  datatype ConstraintInput = ConstraintInput(
    column: int, operation: Operator, valueClass: ValueClass, sourceIndex: nat,
    usable: bool, isIn: bool, nullSafe: bool)
  {
    /** The operator the plan carries: membership wins over the request's operator. */
    function PlannedOperator(): Operator {
      if isIn then In else operation
    }
  }

  datatype OrderInput = OrderInput(column: nat, descending: bool)

  type Bits64 = s: seq<bool> | |s| == 64 witness seq(64, _ => false)

  datatype Request = Request(
    fingerprint: nat, columns: seq<Column>, columnsUsed: Bits64,
    constraints: seq<ConstraintInput>, orderTerms: seq<OrderInput>, keyColumns: seq<nat>,
    baseRows: nat, relationPages: nat, indexPrefix: nat, indexOrdinal: nat)

  predicate ValidRequest(r: Request) {
    && 0 < |r.columns| <= MAX_COLUMNS
    && |r.constraints| <= MAX_CONSTRAINTS
    && |r.orderTerms| <= MAX_ORDER_TERMS
    && |r.keyColumns| <= MAX_CONSTRAINTS
  }

  // ----- per-constraint decisions

  predicate ValueExact(column: Column, operation: Operator, valueClass: ValueClass) {
    if operation.IsNullTest() then true
    else if !(column.capabilities.equality && column.capabilities.exact) then false
    else if !operation.Eq? && !operation.Ne? && !operation.In? && !column.capabilities.order then false
    else if valueClass.Unknown? then false
    else if column.capabilities.binary then valueClass.BlobClass?
    else valueClass.IntegerClass? || valueClass.TextClass?
  }

  predicate IsFilter(c: ConstraintInput) {
    !c.operation.IsWindow()
  }

  predicate Considered(r: Request, c: ConstraintInput) {
    c.usable && IsFilter(c) && 0 <= c.column < |r.columns|
  }

  predicate Pushed(r: Request, c: ConstraintInput) {
    && Considered(r, c)
    && ((c.nullSafe && c.valueClass.NullClass?)
        || ValueExact(r.columns[c.column], c.PlannedOperator(), c.valueClass))
  }

  predicate TakesArgument(c: ConstraintInput) {
    !c.operation.IsNullTest()
  }

  predicate PinsKey(r: Request, c: ConstraintInput) {
    Pushed(r, c) && c.column in r.keyColumns && !c.isIn && c.operation.Eq?
  }

  /** A row may still be discarded locally after this constraint was handled. */
  predicate LeavesRecheck(r: Request, c: ConstraintInput) {
    Considered(r, c) && (c.isIn || !Pushed(r, c))
  }

  predicate ColumnUsed(r: Request, column: nat) {
    r.columnsUsed[if column < 63 then column else 63] || column in r.keyColumns
  }

  // ----- what the compiled plan is

  function Arguments(r: Request, n: nat): (count: nat)
    requires n <= |r.constraints|
    ensures count <= n
  {
    if n == 0 then 0
    else
      var c := r.constraints[n - 1];
      Arguments(r, n - 1) + (if Pushed(r, c) && TakesArgument(c) then 1 else 0)
  }

  function KeyParts(r: Request, n: nat): nat
    requires n <= |r.constraints|
  {
    if n == 0 then 0 else KeyParts(r, n - 1) + (if PinsKey(r, r.constraints[n - 1]) then 1 else 0)
  }

  predicate FiltersRecheck(r: Request, n: nat)
    requires n <= |r.constraints|
  {
    exists i :: 0 <= i < n && LeavesRecheck(r, r.constraints[i])
  }

  predicate OrderExact(r: Request) {
    forall i :: 0 <= i < |r.orderTerms| ==> OrderTermExact(r, r.orderTerms[i])
  }

  predicate OrderTermExact(r: Request, t: OrderInput) {
    t.column < |r.columns| && r.columns[t.column].capabilities.order && r.columns[t.column].capabilities.exact
  }

  predicate HasRecheck(r: Request) {
    FiltersRecheck(r, |r.constraints|) || (r.orderTerms != [] && !OrderExact(r))
  }

  function FilterConstraint(r: Request, c: ConstraintInput, argumentIndex: nat): PlanConstraint
    requires Pushed(r, c)
  {
    PlanConstraint(
      c.column, r.columns[c.column].typeOid, c.sourceIndex, argumentIndex,
      ConstraintFlags(true, c.isIn, c.isIn, c.column in r.keyColumns, c.nullSafe),
      c.PlannedOperator(), c.valueClass.Code())
  }

  function Filters(r: Request, n: nat): (cs: seq<PlanConstraint>)
    requires n <= |r.constraints|
    ensures |cs| <= n
  {
    if n == 0 then []
    else
      var c := r.constraints[n - 1];
      if !Pushed(r, c) then Filters(r, n - 1)
      else Filters(r, n - 1) + [FilterConstraint(r, c, if TakesArgument(c) then Arguments(r, n) else 0)]
  }

  predicate WindowPushed(r: Request, c: ConstraintInput) {
    c.usable && c.operation.IsWindow() && !HasRecheck(r)
  }

  function WindowConstraint(c: ConstraintInput, argumentIndex: nat): PlanConstraint {
    PlanConstraint(-1, 0, c.sourceIndex, argumentIndex,
                   ConstraintFlags(true, false, false, false, false), c.operation, IntegerClass.Code())
  }

  function Windows(r: Request, n: nat): (cs: seq<PlanConstraint>)
    requires n <= |r.constraints|
    ensures |cs| <= n
  {
    if n == 0 then []
    else
      var c := r.constraints[n - 1];
      var before := Windows(r, n - 1);
      if !WindowPushed(r, c) then before
      else before + [WindowConstraint(c, Arguments(r, |r.constraints|) + |before| + 1)]
  }

  predicate ConsumesWindow(r: Request, n: nat, operation: Operator)
    requires n <= |r.constraints|
  {
    exists i :: 0 <= i < n && r.constraints[i].operation == operation && WindowPushed(r, r.constraints[i])
  }

  function OrderTerms(r: Request, n: nat): seq<OrderTerm>
    requires n <= |r.orderTerms|
  {
    seq(n, i requires 0 <= i < n =>
      OrderTerm(r.orderTerms[i].column, r.orderTerms[i].descending, !r.orderTerms[i].descending))
  }

  // ----- projection

  function AddProjection(projection: seq<nat>, column: nat): Option<seq<nat>> {
    if |projection| >= MAX_COLUMNS then None
    else if column in projection then Some(projection)
    else Some(projection + [column])
  }

  /** Columns added one after the other; fails as soon as one addition fails. */
  function Project(columns: seq<nat>): Option<seq<nat>> {
    if columns == [] then Some([])
    else
      match Project(columns[..|columns| - 1])
      case None => None
      case Some(p) => AddProjection(p, columns[|columns| - 1])
  }

  function UsedColumns(r: Request, n: nat): seq<nat> {
    if n == 0 then [] else UsedColumns(r, n - 1) + (if ColumnUsed(r, n - 1) then [n - 1] else [])
  }

  function BaseColumns(r: Request): seq<nat> {
    var used := UsedColumns(r, |r.columns|);
    if used == [] then [0] else used
  }

  function PushedColumns(r: Request, n: nat): seq<nat>
    requires n <= |r.constraints|
  {
    if n == 0 then []
    else PushedColumns(r, n - 1) + (if Pushed(r, r.constraints[n - 1]) then [r.constraints[n - 1].column] else [])
  }

  function OrderColumns(r: Request, n: nat): seq<nat>
    requires n <= |r.orderTerms|
  {
    seq(n, i requires 0 <= i < n => r.orderTerms[i].column)
  }

  function WantedColumns(r: Request): seq<nat> {
    BaseColumns(r) + PushedColumns(r, |r.constraints|) +
    (if OrderExact(r) then OrderColumns(r, |r.orderTerms|) else [])
  }

  // ----- estimates

  predicate IsUnique(r: Request) {
    r.keyColumns != [] && KeyParts(r, |r.constraints|) == |r.keyColumns|
  }

  function BaseRows(r: Request): (base: nat)
    ensures base > 0
  {
    if r.baseRows != 0 then r.baseRows else 1000000
  }

  function EstimatedRows(r: Request, constraintCount: nat): (rows: nat)
    ensures rows > 0
  {
    if IsUnique(r) then 1
    else Share(BaseRows(r), 1 + constraintCount * 8 + (if r.indexPrefix != 0 then 16 else 0))
  }

  function Share(base: nat, divisor: nat): (rows: nat)
    requires divisor > 0
    ensures rows > 0
  {
    if base < divisor then 1 else DivAtLeastOne(base, divisor); base / divisor
  }

  lemma DivAtLeastOne(base: nat, divisor: nat)
    requires 0 < divisor <= base
    ensures base / divisor >= 1
  {
    assert base == (base / divisor) * divisor + base % divisor;
  }

  function EstimatedCost(rows: nat, pages: nat): (cost: nat)
    ensures 0 < cost < U64
  {
    var cost := (rows * 1000 + pages * 10) % U64;
    if cost == 0 then 1 else cost
  }

  function Clamp16(v: nat): (r: nat)
    ensures r < U16
  {
    if v < U16 - 1 then v else U16 - 1
  }

  function AllConstraints(r: Request): seq<PlanConstraint> {
    Filters(r, |r.constraints|) + Windows(r, |r.constraints|)
  }

  function PlanFor(r: Request, projection: seq<nat>): Plan {
    var constraints := AllConstraints(r);
    var rows := EstimatedRows(r, |constraints|);
    Plan(
      FORMAT_VERSION,
      PlanFlags(r.orderTerms != [] && OrderExact(r), IsUnique(r), HasRecheck(r),
                ConsumesWindow(r, |r.constraints|, Limit), ConsumesWindow(r, |r.constraints|, Offset)),
      r.fingerprint, rows, EstimatedCost(rows, r.relationPages),
      projection, constraints,
      if OrderExact(r) then OrderTerms(r, |r.orderTerms|) else [],
      Arguments(r, |r.constraints|) + |Windows(r, |r.constraints|)|,
      Clamp16(r.indexPrefix), Clamp16(r.indexOrdinal))
  }

  function Compiled(r: Request): Result<Plan> {
    if !ValidRequest(r) then Failure(InvalidArgument)
    else
      match Project(WantedColumns(r))
      case None => Failure(LimitExceeded)
      case Some(projection) => Success(PlanFor(r, projection))
  }

  lemma {:induction false} ProjectFailureIsFinal(prefix: seq<nat>, rest: seq<nat>)
    requires Project(prefix).None?
    ensures Project(prefix + rest).None?
  {
    if rest == [] {
      assert prefix + rest == prefix;
    } else {
      var n := |rest| - 1;
      ProjectFailureIsFinal(prefix, rest[..n]);
      assert (prefix + rest)[..|prefix + rest| - 1] == prefix + rest[..n];
    }
  }

  lemma ProjectStep(prefix: seq<nat>, column: nat)
    requires Project(prefix).Some?
    ensures Project(prefix + [column]) == AddProjection(Project(prefix).value, column)
  {
    assert (prefix + [column])[..|prefix|] == prefix;
  }

  method ProjectUsedColumns(r: Request) returns (projection: Option<seq<nat>>)
    ensures projection.Some? ==> projection == Project(BaseColumns(r))
    ensures projection.None? ==> Project(WantedColumns(r)).None?
  {
    var p: seq<nat> := [];
    ghost var added: seq<nat> := [];
    for index := 0 to |r.columns|
      invariant added == UsedColumns(r, index)
      invariant Project(added) == Some(p)
      invariant added == [] <==> p == []
    {
      if ColumnUsed(r, index) {
        var next := AddProjection(p, index);
        ProjectStep(added, index);
        if next.None? {
          UsedColumnFails(r, index);
          return None;
        }
        p := next.value;
        added := added + [index];
      }
    }
    if |p| == 0 {
      ProjectZero();
      p := [0];
    }
    return Some(p);
  }

  lemma ProjectZero()
    ensures Project([0]) == Some([0])
  {
    ProjectStep([], 0);
    assert [] + [0] == [0];
  }

  lemma UsedColumnFails(r: Request, index: nat)
    requires index < |r.columns| && ColumnUsed(r, index) && Project(UsedColumns(r, index) + [index]).None?
    ensures Project(WantedColumns(r)).None?
  {
    UsedColumnsExtend(r, index + 1, |r.columns|);
    ProjectFails(UsedColumns(r, index) + [index], r);
  }

  lemma PushedColumnFails(r: Request, index: nat)
    requires index < |r.constraints| && Project(BaseColumns(r) + PushedColumns(r, index + 1)).None?
    ensures Project(WantedColumns(r)).None?
  {
    PushedColumnsExtend(r, index + 1, |r.constraints|);
    ProjectFails(BaseColumns(r) + PushedColumns(r, index + 1), r);
  }

  lemma ProjectFails(prefix: seq<nat>, r: Request)
    requires Project(prefix).None? && prefix <= WantedColumns(r)
    ensures Project(WantedColumns(r)).None?
  {
    ProjectFailureIsFinal(prefix, WantedColumns(r)[|prefix|..]);
    assert WantedColumns(r) == prefix + WantedColumns(r)[|prefix|..];
  }

  datatype FilterPass = FilterPass(
    constraints: seq<PlanConstraint>, argumentCount: nat, exactKeyParts: nat, hasRecheck: bool,
    projection: seq<nat>)

  /** The pass after the first `n` constraints. */
  ghost predicate FiltersDone(r: Request, n: nat, pass: FilterPass)
    requires n <= |r.constraints|
  {
    && pass.constraints == Filters(r, n)
    && pass.argumentCount == Arguments(r, n)
    && pass.exactKeyParts == KeyParts(r, n)
    && pass.hasRecheck == FiltersRecheck(r, n)
    && Project(BaseColumns(r) + PushedColumns(r, n)) == Some(pass.projection)
  }

  lemma FiltersStart(r: Request, done: FilterPass)
    requires done == FilterPass([], 0, 0, false, done.projection) && Project(BaseColumns(r)) == Some(done.projection)
    ensures FiltersDone(r, 0, done)
  {
    assert BaseColumns(r) + PushedColumns(r, 0) == BaseColumns(r);
  }

  /** A constraint that is not pushed at most asks for a recheck. */
  lemma FiltersSkip(r: Request, index: nat, done: FilterPass)
    requires index < |r.constraints| && FiltersDone(r, index, done) && !Pushed(r, r.constraints[index])
    ensures FiltersDone(r, index + 1, done.(hasRecheck := done.hasRecheck || Considered(r, r.constraints[index])))
  {
    assert PushedColumns(r, index + 1) == PushedColumns(r, index);
  }

  method PushFilters(r: Request, base: seq<nat>) returns (pass: Option<FilterPass>)
    requires Project(BaseColumns(r)) == Some(base)
    ensures pass.None? ==> Project(WantedColumns(r)).None?
    ensures pass.Some? ==> FiltersDone(r, |r.constraints|, pass.value)
  {
    var done := FilterPass([], 0, 0, false, base);
    FiltersStart(r, done);
    for index := 0 to |r.constraints|
      invariant FiltersDone(r, index, done)
    {
      pass := TakeFilter(r, index, done);
      if pass.None? { return; }
      done := pass.value;
    }
    return Some(done);
  }

  /** One constraint of the first loop: pushed, left for a recheck, or skipped. */
  method TakeFilter(r: Request, index: nat, done: FilterPass) returns (pass: Option<FilterPass>)
    requires index < |r.constraints| && FiltersDone(r, index, done)
    ensures pass.None? ==> Project(WantedColumns(r)).None?
    ensures pass.Some? ==> FiltersDone(r, index + 1, pass.value)
  {
    var input := r.constraints[index];
    if Considered(r, input) && Pushed(r, input) {
      pass := PushFilter(r, index, done);
      return;
    }
    FiltersSkip(r, index, done);
    return Some(done.(hasRecheck := done.hasRecheck || Considered(r, input)));
  }

  /** Pushes one constraint. A plan has at most one constraint per input, so its own bound of 64
      is never reached. */
  method PushFilter(r: Request, index: nat, done: FilterPass) returns (pass: Option<FilterPass>)
    requires index < |r.constraints| && FiltersDone(r, index, done)
    requires Considered(r, r.constraints[index]) && Pushed(r, r.constraints[index])
    ensures pass.None? ==> Project(WantedColumns(r)).None?
    ensures pass.Some? ==> FiltersDone(r, index + 1, pass.value)
  {
    var input := r.constraints[index];
    var argumentCount := done.argumentCount + if TakesArgument(input) then 1 else 0;
    var constraint := FilterConstraint(r, input, if TakesArgument(input) then argumentCount else 0);
    var next := AddProjection(done.projection, input.column);
    ProjectNext(r, index, done.projection);
    if next.None? {
      PushedColumnFails(r, index);
      return None;
    }
    return Some(FilterPass(done.constraints + [constraint], argumentCount,
                           done.exactKeyParts + (if PinsKey(r, input) then 1 else 0),
                           done.hasRecheck || input.isIn, next.value));
  }

  lemma ProjectNext(r: Request, index: nat, projection: seq<nat>)
    requires index < |r.constraints| && Considered(r, r.constraints[index]) && Pushed(r, r.constraints[index])
    requires Project(BaseColumns(r) + PushedColumns(r, index)) == Some(projection)
    ensures Project(BaseColumns(r) + PushedColumns(r, index + 1)) == AddProjection(projection, r.constraints[index].column)
  {
    ProjectStep(BaseColumns(r) + PushedColumns(r, index), r.constraints[index].column);
    assert BaseColumns(r) + PushedColumns(r, index + 1)
           == BaseColumns(r) + PushedColumns(r, index) + [r.constraints[index].column];
  }

  method CheckOrder(r: Request) returns (exact: bool)
    ensures exact == OrderExact(r)
  {
    for index := 0 to |r.orderTerms|
      invariant forall i :: 0 <= i < index ==> OrderTermExact(r, r.orderTerms[i])
    {
      if !OrderTermExact(r, r.orderTerms[index]) { return false; }
    }
    return true;
  }

  method PushOrder(r: Request, start: seq<nat>) returns (pass: Option<(seq<OrderTerm>, seq<nat>)>)
    requires OrderExact(r)
    requires Project(BaseColumns(r) + PushedColumns(r, |r.constraints|)) == Some(start)
    ensures pass.None? ==> Project(WantedColumns(r)).None?
    ensures pass.Some? ==>
      pass.value.0 == OrderTerms(r, |r.orderTerms|) && Project(WantedColumns(r)) == Some(pass.value.1)
  {
    var orderTerms: seq<OrderTerm> := [];
    var projection := start;
    ghost var before := BaseColumns(r) + PushedColumns(r, |r.constraints|);
    ghost var added := before;
    for index := 0 to |r.orderTerms|
      invariant orderTerms == OrderTerms(r, index)
      invariant added == before + OrderColumns(r, index)
      invariant Project(added) == Some(projection)
    {
      var input := r.orderTerms[index];
      orderTerms := orderTerms + [OrderTerm(input.column, input.descending, !input.descending)];
      var next := AddProjection(projection, input.column);
      ProjectStep(added, input.column);
      added := added + [input.column];
      assert added == before + OrderColumns(r, index + 1);
      if next.None? {
        assert OrderColumns(r, index + 1) <= OrderColumns(r, |r.orderTerms|);
        ProjectFails(added, r);
        return None;
      }
      projection := next.value;
    }
    return Some((orderTerms, projection));
  }

  method PushWindows(r: Request, hasRecheck: bool, arguments: nat)
    returns (windows: seq<PlanConstraint>, limitConsumed: bool, offsetConsumed: bool)
    requires hasRecheck == HasRecheck(r) && arguments == Arguments(r, |r.constraints|)
    ensures windows == Windows(r, |r.constraints|)
    ensures limitConsumed == ConsumesWindow(r, |r.constraints|, Limit)
    ensures offsetConsumed == ConsumesWindow(r, |r.constraints|, Offset)
  {
    windows, limitConsumed, offsetConsumed := [], false, false;
    for index := 0 to |r.constraints|
      invariant windows == Windows(r, index)
      invariant limitConsumed == ConsumesWindow(r, index, Limit)
      invariant offsetConsumed == ConsumesWindow(r, index, Offset)
    {
      var input := r.constraints[index];
      if input.usable && input.operation.IsWindow() && !hasRecheck {
        windows := windows + [WindowConstraint(input, arguments + |windows| + 1)];
        if input.operation.Limit? { limitConsumed := true; } else { offsetConsumed := true; }
      }
    }
  }

  method EstimateRows(r: Request, unique: bool, constraintCount: nat) returns (rows: nat)
    requires unique == IsUnique(r)
    ensures rows == EstimatedRows(r, constraintCount)
  {
    rows := 1;
    if !unique {
      var divisor := 1 + constraintCount * 8;
      if r.indexPrefix != 0 { divisor := divisor + 16; }
      rows := Share(if r.baseRows != 0 then r.baseRows else 1000000, divisor);
    }
  }

  /** LIMIT and OFFSET, the flags and the estimates. */
  method Finish(r: Request, pass: FilterPass, hasRecheck: bool, orderExact: bool,
                orderTerms: seq<OrderTerm>, projection: seq<nat>) returns (plan: Plan)
    requires pass.constraints == Filters(r, |r.constraints|)
    requires pass.argumentCount == Arguments(r, |r.constraints|)
    requires pass.exactKeyParts == KeyParts(r, |r.constraints|)
    requires hasRecheck == HasRecheck(r) && orderExact == OrderExact(r)
    requires orderTerms == if orderExact then OrderTerms(r, |r.orderTerms|) else []
    ensures plan == PlanFor(r, projection)
  {
    var windows, limitConsumed, offsetConsumed := PushWindows(r, hasRecheck, pass.argumentCount);
    var constraints := pass.constraints + windows;
    var unique := |r.keyColumns| != 0 && pass.exactKeyParts == |r.keyColumns|;
    var rows := EstimateRows(r, unique, |constraints|);
    plan := Plan(
      FORMAT_VERSION,
      PlanFlags(orderExact && |r.orderTerms| != 0, unique, hasRecheck, limitConsumed, offsetConsumed),
      r.fingerprint, rows, EstimatedCost(rows, r.relationPages), projection, constraints, orderTerms,
      pass.argumentCount + |windows|, Clamp16(r.indexPrefix), Clamp16(r.indexOrdinal));
  }

  /** The compiler: columns, then filters, then order terms, then LIMIT and OFFSET. */
  method Compile(r: Request) returns (result: Result<Plan>)
    ensures result == Compiled(r)
  {
    if !ValidRequest(r) {
      return Failure(InvalidArgument);
    }
    var base := ProjectUsedColumns(r);
    if base.None? { return Failure(LimitExceeded); }
    var pass := PushFilters(r, base.value);
    if pass.None? { return Failure(LimitExceeded); }
    var projection, hasRecheck := pass.value.projection, pass.value.hasRecheck;
    var orderTerms: seq<OrderTerm> := [];
    var orderExact := CheckOrder(r);
    if orderExact {
      var order := PushOrder(r, projection);
      if order.None? { return Failure(LimitExceeded); }
      orderTerms, projection := order.value.0, order.value.1;
    } else if |r.orderTerms| != 0 {
      hasRecheck := true;
      assert WantedColumns(r) == BaseColumns(r) + PushedColumns(r, |r.constraints|);
    }
    var plan := Finish(r, pass.value, hasRecheck, orderExact, orderTerms, projection);
    result := Success(plan);
  }

  lemma {:induction false} UsedColumnsExtend(r: Request, m: nat, n: nat)
    requires m <= n
    ensures UsedColumns(r, m) <= UsedColumns(r, n)
  {
    if m < n { UsedColumnsExtend(r, m, n - 1); }
  }

  lemma {:induction false} PushedColumnsExtend(r: Request, m: nat, n: nat)
    requires m <= n <= |r.constraints|
    ensures PushedColumns(r, m) <= PushedColumns(r, n)
  {
    if m < n { PushedColumnsExtend(r, m, n - 1); }
  }
}
