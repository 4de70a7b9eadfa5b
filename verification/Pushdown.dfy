/** What a plan means: the remote half the plan describes, followed by the local half
    SQLite still performs, compared with evaluating the whole query locally. */
module Pushdown {
  import opened Options
  import opened Plans
  import opened Planner
  import opened RowSequences

  datatype Value = Null | Integer(n: int) | Real(x: real) | Text(s: string) | Blob(b: seq<nat>)
  datatype Argument = Scalar(v: Value) | List(vs: seq<Value>)
  type Row = seq<Value>

  /** The two database engines. The local and the remote comparison are unrelated
      except where `Agrees` says so. Null tests are the same in both. A constraint
      outside the table's columns (a rowid, say) is only ever tested locally. */
  datatype Engine = Engine(
    nullTest: (Operator, Value) -> bool,
    localTest: (Operator, bool, Value, Argument) -> bool,
    hiddenTest: (Operator, int, Row, Argument) -> bool,
    remoteTest: (nat, Operator, bool, Value, Argument) -> bool,
    localLe: (Value, Value) -> bool,
    remoteLe: (nat, Value, Value) -> bool)

  function Class(a: Argument): ValueClass {
    match a
    case List(_) => Unknown
    case Scalar(Null) => NullClass
    case Scalar(Integer(_)) => IntegerClass
    case Scalar(Real(_)) => RealClass
    case Scalar(Text(_)) => TextClass
    case Scalar(Blob(_)) => BlobClass
  }

  /** The documented exactness policy: when remote and local comparison coincide. */
  predicate DocumentedExact(column: Column, operation: Operator, valueClass: ValueClass) {
    && column.capabilities.equality && column.capabilities.exact
    && (operation in {Lt, Le, Gt, Ge} ==> column.capabilities.order)
    && (if column.capabilities.binary then valueClass == BlobClass else valueClass in {IntegerClass, TextClass})
  }

  ghost predicate TestsAgree(e: Engine, r: Request) {
    forall c: nat, op: Operator, nullSafe: bool, cell: Value, a: Argument ::
      c < |r.columns| && !op.In? && ExactTest(r.columns[c], op, nullSafe, a) ==>
      e.remoteTest(r.columns[c].typeOid, op, nullSafe, cell, a) == e.localTest(op, nullSafe, cell, a)
  }

  predicate ExactTest(column: Column, operation: Operator, nullSafe: bool, a: Argument) {
    DocumentedExact(column, operation, Class(a)) || (nullSafe && a == Scalar(Null))
  }

  /** A remote membership test may be dropped or widened, never narrowed. */
  ghost predicate MembershipIsWide(e: Engine) {
    forall oid: nat, nullSafe: bool, cell: Value, a: Argument ::
      e.localTest(In, nullSafe, cell, a) ==> e.remoteTest(oid, In, nullSafe, cell, a)
  }

  ghost predicate OrdersAgree(e: Engine, r: Request) {
    forall c: nat, x: Value, y: Value ::
      c < |r.columns| && r.columns[c].capabilities.order && r.columns[c].capabilities.exact && x != Null && y != Null ==>
      e.remoteLe(c, x, y) == e.localLe(x, y)
  }

  ghost predicate LocalOrder(e: Engine) {
    && (forall x, y :: x != Null && y != Null ==> e.localLe(x, y) || e.localLe(y, x))
    && (forall x, y, z :: x != Null && y != Null && z != Null && e.localLe(x, y) && e.localLe(y, z) ==> e.localLe(x, z))
  }

  ghost predicate Agrees(e: Engine, r: Request) {
    TestsAgree(e, r) && MembershipIsWide(e) && OrdersAgree(e, r) && LocalOrder(e)
  }

  // ----- what SQLite promises of a request

  ghost predicate WellPosed(r: Request) {
    && (forall i, j :: 0 <= i < j < |r.constraints| ==> r.constraints[i].sourceIndex != r.constraints[j].sourceIndex)
    && (forall i, j :: 0 <= i < j < |r.constraints| && r.constraints[i].operation.IsWindow() ==>
          r.constraints[i].operation != r.constraints[j].operation)
    && (forall i :: 0 <= i < |r.constraints| ==> WellPosedConstraint(r.constraints[i]))
  }

  ghost predicate WellPosedConstraint(c: ConstraintInput) {
    (c.isIn ==> c.operation.Eq?) && !c.operation.In? && (c.operation.IsNullTest() ==> c.usable)
  }

  /** The right-hand sides, by SQLite constraint number, have the classes seen at planning time. */
  ghost predicate Classified(r: Request, rhs: nat -> Argument) {
    forall i :: 0 <= i < |r.constraints| ==> ClassifiedConstraint(r.constraints[i], rhs)
  }

  ghost predicate ClassifiedConstraint(c: ConstraintInput, rhs: nat -> Argument) {
    c.usable && IsFilter(c) && !c.isIn && !c.operation.IsNullTest() && !c.valueClass.Unknown? ==>
      Class(rhs(c.sourceIndex)) == c.valueClass
  }

  /** The argument vector the host builds from the plan. */
  ghost predicate Bound(plan: Plan, argv: seq<Argument>, rhs: nat -> Argument) {
    && |argv| == plan.argumentCount
    && forall k :: 0 <= k < |plan.constraints| && plan.constraints[k].argumentIndex != 0 ==>
         && plan.constraints[k].argumentIndex <= |argv|
         && argv[plan.constraints[k].argumentIndex - 1] == rhs(plan.constraints[k].sourceIndex)
  }

  // ----- filters

  ghost predicate LocalHolds(e: Engine, r: Request, c: ConstraintInput, row: Row, rhs: nat -> Argument) {
    if !(0 <= c.column < |r.columns|) || c.column >= |row|
    then e.hiddenTest(c.PlannedOperator(), c.column, row, rhs(c.sourceIndex))
    else if c.operation.IsNullTest() then e.nullTest(c.operation, row[c.column])
    else e.localTest(c.PlannedOperator(), c.nullSafe, row[c.column], rhs(c.sourceIndex))
  }

  ghost predicate RemoteHolds(e: Engine, c: PlanConstraint, row: Row, argv: seq<Argument>) {
    if c.operation.IsWindow() then true
    else if !(0 <= c.column < |row|) then false
    else if c.operation.IsNullTest() then e.nullTest(c.operation, row[c.column])
    else
      && 0 < c.argumentIndex <= |argv|
      && e.remoteTest(c.typeOid, c.operation, c.flags.nullSafe, row[c.column], argv[c.argumentIndex - 1])
  }

  ghost predicate Wanted(e: Engine, r: Request, rhs: nat -> Argument, row: Row) {
    forall i :: 0 <= i < |r.constraints| && IsFilter(r.constraints[i]) ==> LocalHolds(e, r, r.constraints[i], row, rhs)
  }

  ghost predicate Sent(e: Engine, plan: Plan, argv: seq<Argument>, row: Row) {
    forall k :: 0 <= k < |plan.constraints| ==> RemoteHolds(e, plan.constraints[k], row, argv)
  }

  /** The host tells SQLite to omit its own test of every pushed constraint not marked RECHECK. */
  ghost predicate Omitted(plan: Plan, sourceIndex: nat) {
    exists k :: 0 <= k < |plan.constraints|
      && plan.constraints[k].sourceIndex == sourceIndex && !plan.constraints[k].flags.recheck
  }

  ghost predicate Rechecked(e: Engine, r: Request, plan: Plan, rhs: nat -> Argument, row: Row) {
    forall i :: 0 <= i < |r.constraints| && IsFilter(r.constraints[i]) && !Omitted(plan, r.constraints[i].sourceIndex) ==>
      LocalHolds(e, r, r.constraints[i], row, rhs)
  }

  // ----- order

  function Cell(row: Row, column: nat): Value {
    if column < |row| then row[column] else Null
  }

  /** NULL is the smallest value; descending order reverses. */
  function LocalCellLe(e: Engine, t: OrderInput, a: Row, b: Row): bool {
    var x, y := Cell(a, t.column), Cell(b, t.column);
    var (small, large) := if t.descending then (y, x) else (x, y);
    small == Null || (large != Null && e.localLe(small, large))
  }

  function RemoteCellLe(e: Engine, t: OrderTerm, a: Row, b: Row): bool {
    var x, y := Cell(a, t.column), Cell(b, t.column);
    if x == Null && y == Null then true
    else if x == Null then t.nullsFirst
    else if y == Null then !t.nullsFirst
    else if t.descending then e.remoteLe(t.column, y, x)
    else e.remoteLe(t.column, x, y)
  }

  function LocalLe(e: Engine, ts: seq<OrderInput>, a: Row, b: Row): bool {
    if ts == [] then true
    else if !LocalCellLe(e, ts[0], a, b) then false
    else if !LocalCellLe(e, ts[0], b, a) then true
    else LocalLe(e, ts[1..], a, b)
  }

  function RemoteLe(e: Engine, ts: seq<OrderTerm>, a: Row, b: Row): bool {
    if ts == [] then true
    else if !RemoteCellLe(e, ts[0], a, b) then false
    else if !RemoteCellLe(e, ts[0], b, a) then true
    else RemoteLe(e, ts[1..], a, b)
  }

  // ----- LIMIT and OFFSET

  function Skip(rows: seq<Row>, a: Option<Argument>): seq<Row> {
    match a
    case Some(Scalar(Integer(n))) => if n <= 0 then rows else if n >= |rows| then [] else rows[n..]
    case _ => rows
  }

  function Take(rows: seq<Row>, a: Option<Argument>): seq<Row> {
    match a
    case Some(Scalar(Integer(n))) => if n < 0 || n >= |rows| then rows else rows[..n]
    case _ => rows
  }

  ghost predicate HasWindow(r: Request, operation: Operator, i: nat) {
    i < |r.constraints| && r.constraints[i].operation == operation
  }

  ghost function RequestWindow(r: Request, operation: Operator, rhs: nat -> Argument): Option<Argument> {
    if exists i: nat :: HasWindow(r, operation, i)
    then var i: nat :| HasWindow(r, operation, i); Some(rhs(r.constraints[i].sourceIndex))
    else None
  }

  ghost predicate SendsWindow(plan: Plan, operation: Operator, k: nat) {
    k < |plan.constraints| && plan.constraints[k].operation == operation
  }

  ghost function PlanWindow(plan: Plan, operation: Operator, argv: seq<Argument>): Option<Argument> {
    if exists k: nat :: SendsWindow(plan, operation, k)
    then
      var k: nat :| SendsWindow(plan, operation, k);
      var index := plan.constraints[k].argumentIndex;
      if 0 < index <= |argv| then Some(argv[index - 1]) else None
    else None
  }

  // ----- the two evaluations

  ghost function Direct(e: Engine, r: Request, rhs: nat -> Argument, table: seq<Row>): seq<Row> {
    var kept := Select(table, row => Wanted(e, r, rhs, row));
    var sorted := if r.orderTerms != [] then Sort(kept, (a, b) => LocalLe(e, r.orderTerms, a, b)) else kept;
    Take(Skip(sorted, RequestWindow(r, Offset, rhs)), RequestWindow(r, Limit, rhs))
  }

  ghost function Remote(e: Engine, plan: Plan, argv: seq<Argument>, table: seq<Row>): seq<Row> {
    var kept := Select(table, row => Sent(e, plan, argv, row));
    var sorted := if plan.flags.orderConsumed then Sort(kept, (a, b) => RemoteLe(e, plan.orderTerms, a, b)) else kept;
    Take(Skip(sorted, PlanWindow(plan, Offset, argv)), PlanWindow(plan, Limit, argv))
  }

  ghost function Local(e: Engine, r: Request, plan: Plan, rhs: nat -> Argument, rows: seq<Row>): seq<Row> {
    var kept := Select(rows, row => Rechecked(e, r, plan, rhs, row));
    var sorted := if r.orderTerms != [] && !plan.flags.orderConsumed
                  then Sort(kept, (a, b) => LocalLe(e, r.orderTerms, a, b)) else kept;
    var skipped := if plan.flags.offsetConsumed then sorted else Skip(sorted, RequestWindow(r, Offset, rhs));
    if plan.flags.limitConsumed then skipped else Take(skipped, RequestWindow(r, Limit, rhs))
  }

  ghost function PushedAnswer(e: Engine, r: Request, plan: Plan, argv: seq<Argument>, rhs: nat -> Argument, table: seq<Row>): seq<Row> {
    Local(e, r, plan, rhs, Remote(e, plan, argv, table))
  }

  // ----- where plan constraints come from

  lemma {:induction false} FilterAt(r: Request, n: nat, i: nat)
    requires i < n <= |r.constraints| && Pushed(r, r.constraints[i])
    ensures var k := |Filters(r, i)|;
      && k < |Filters(r, n)|
      && Filters(r, n)[k] == FilterConstraint(r, r.constraints[i], if TakesArgument(r.constraints[i]) then Arguments(r, i + 1) else 0)
    ensures TakesArgument(r.constraints[i]) ==> Arguments(r, i + 1) > 0
  {
    if i < n - 1 { FilterAt(r, n - 1, i); }
  }

  lemma {:induction false} FilterOrigin(r: Request, n: nat, k: nat) returns (i: nat)
    requires n <= |r.constraints| && k < |Filters(r, n)|
    ensures i < n && Pushed(r, r.constraints[i]) && k == |Filters(r, i)|
  {
    if k < |Filters(r, n - 1)| { i := FilterOrigin(r, n - 1, k); } else { i := n - 1; }
  }

  lemma {:induction false} WindowAt(r: Request, n: nat, i: nat)
    requires i < n <= |r.constraints| && WindowPushed(r, r.constraints[i])
    ensures var k := |Windows(r, i)|;
      && k < |Windows(r, n)|
      && Windows(r, n)[k] == WindowConstraint(r.constraints[i], Arguments(r, |r.constraints|) + k + 1)
  {
    if i < n - 1 { WindowAt(r, n - 1, i); }
  }

  lemma {:induction false} WindowOrigin(r: Request, n: nat, k: nat) returns (i: nat)
    requires n <= |r.constraints| && k < |Windows(r, n)|
    ensures i < n && WindowPushed(r, r.constraints[i]) && k == |Windows(r, i)|
  {
    if k < |Windows(r, n - 1)| { i := WindowOrigin(r, n - 1, k); } else { i := n - 1; }
  }

  /** The plan constraint `pc` was made from the input `c`. */
  ghost predicate MadeFrom(r: Request, c: ConstraintInput, pc: PlanConstraint) {
    && pc.sourceIndex == c.sourceIndex
    && if IsFilter(c) then
         && Pushed(r, c)
         && pc == FilterConstraint(r, c, pc.argumentIndex)
         && (TakesArgument(c) ==> pc.argumentIndex > 0)
       else
         WindowPushed(r, c) && pc == WindowConstraint(c, pc.argumentIndex) && pc.argumentIndex > 0
  }

  lemma FilterMadeFrom(r: Request, k: nat) returns (i: nat)
    requires k < |Filters(r, |r.constraints|)|
    ensures i < |r.constraints| && MadeFrom(r, r.constraints[i], Filters(r, |r.constraints|)[k])
  {
    i := FilterOrigin(r, |r.constraints|, k);
    FilterAt(r, |r.constraints|, i);
  }

  lemma WindowMadeFrom(r: Request, k: nat) returns (i: nat)
    requires k < |Windows(r, |r.constraints|)|
    ensures i < |r.constraints| && MadeFrom(r, r.constraints[i], Windows(r, |r.constraints|)[k])
  {
    i := WindowOrigin(r, |r.constraints|, k);
    WindowAt(r, |r.constraints|, i);
  }

  lemma ConstraintsAre(r: Request, plan: Plan)
    requires Compiled(r) == Success(plan)
    ensures plan.constraints == Filters(r, |r.constraints|) + Windows(r, |r.constraints|)
  {
  }

  /** Every plan constraint is a pushed filter or a pushed window, from one input. */
  lemma ConstraintOrigin(r: Request, plan: Plan, k: nat) returns (i: nat)
    requires Compiled(r) == Success(plan) && k < |plan.constraints|
    ensures i < |r.constraints| && MadeFrom(r, r.constraints[i], plan.constraints[k])
  {
    ConstraintsAre(r, plan);
    i := OriginOf(r, plan.constraints, k);
  }

  lemma OriginOf(r: Request, all: seq<PlanConstraint>, k: nat) returns (i: nat)
    requires all == Filters(r, |r.constraints|) + Windows(r, |r.constraints|) && k < |all|
    ensures i < |r.constraints| && MadeFrom(r, r.constraints[i], all[k])
  {
    var filters, windows := Filters(r, |r.constraints|), Windows(r, |r.constraints|);
    if k < |filters| {
      i := FilterMadeFrom(r, k);
      assert all[k] == filters[k];
    } else {
      i := WindowMadeFrom(r, k - |filters|);
      assert all[k] == windows[k - |filters|];
    }
  }

  // ----- filters: sent and rechecked is wanted

  lemma PushedTestAgrees(e: Engine, r: Request, c: ConstraintInput, pc: PlanConstraint, row: Row, argv: seq<Argument>, rhs: nat -> Argument)
    requires Agrees(e, r) && |row| == |r.columns| && Pushed(r, c)
    requires WellPosedConstraint(c) && ClassifiedConstraint(c, rhs)
    requires pc == FilterConstraint(r, c, pc.argumentIndex)
    requires TakesArgument(c) ==> 0 < pc.argumentIndex <= |argv| && argv[pc.argumentIndex - 1] == rhs(c.sourceIndex)
    ensures LocalHolds(e, r, c, row, rhs) ==> RemoteHolds(e, pc, row, argv)
    ensures !c.isIn && RemoteHolds(e, pc, row, argv) ==> LocalHolds(e, r, c, row, rhs)
  {
    var column, a := r.columns[c.column], rhs(c.sourceIndex);
    if c.operation.IsNullTest() {
    } else if c.isIn {
    } else if c.nullSafe && c.valueClass.NullClass? {
      assert Class(a) == NullClass;
      assert a == Scalar(Null);
    } else {
      assert DocumentedExact(column, c.operation, Class(a));
    }
  }

  lemma RowVerdict(e: Engine, r: Request, plan: Plan, argv: seq<Argument>, rhs: nat -> Argument, row: Row)
    requires Compiled(r) == Success(plan) && WellPosed(r) && Agrees(e, r)
    requires Classified(r, rhs) && Bound(plan, argv, rhs) && |row| == |r.columns|
    ensures Sent(e, plan, argv, row) && Rechecked(e, r, plan, rhs, row) <==> Wanted(e, r, rhs, row)
  {
    if Wanted(e, r, rhs, row) {
      forall k | 0 <= k < |plan.constraints| ensures RemoteHolds(e, plan.constraints[k], row, argv) {
        var i := ConstraintOrigin(r, plan, k);
        if IsFilter(r.constraints[i]) {
          PushedTestAgrees(e, r, r.constraints[i], plan.constraints[k], row, argv, rhs);
        }
      }
    }
    if Sent(e, plan, argv, row) && Rechecked(e, r, plan, rhs, row) {
      forall i | 0 <= i < |r.constraints| && IsFilter(r.constraints[i])
        ensures LocalHolds(e, r, r.constraints[i], row, rhs)
      {
        if Omitted(plan, r.constraints[i].sourceIndex) {
          OmittedHolds(e, r, plan, argv, rhs, row, i);
        }
      }
    }
  }

  lemma OmittedHolds(e: Engine, r: Request, plan: Plan, argv: seq<Argument>, rhs: nat -> Argument, row: Row, i: nat)
    requires Compiled(r) == Success(plan) && WellPosed(r) && Agrees(e, r)
    requires Classified(r, rhs) && Bound(plan, argv, rhs) && |row| == |r.columns|
    requires i < |r.constraints| && IsFilter(r.constraints[i]) && Omitted(plan, r.constraints[i].sourceIndex)
    requires Sent(e, plan, argv, row)
    ensures LocalHolds(e, r, r.constraints[i], row, rhs)
  {
    var k :| 0 <= k < |plan.constraints|
      && plan.constraints[k].sourceIndex == r.constraints[i].sourceIndex && !plan.constraints[k].flags.recheck;
    var j := ConstraintOrigin(r, plan, k);
    assert j == i;
    assert RemoteHolds(e, plan.constraints[k], row, argv);
    PushedTestAgrees(e, r, r.constraints[i], plan.constraints[k], row, argv, rhs);
  }

  // ----- order: the remote order is the local one

  lemma {:induction false} LocalLePreorder(e: Engine, ts: seq<OrderInput>)
    requires LocalOrder(e)
    ensures forall a, b :: LocalLe(e, ts, a, b) || LocalLe(e, ts, b, a)
    ensures forall a, b, c :: LocalLe(e, ts, a, b) && LocalLe(e, ts, b, c) ==> LocalLe(e, ts, a, c)
  {
    if ts != [] {
      LocalLePreorder(e, ts[1..]);
      forall a, b, c | LocalCellLe(e, ts[0], a, b) && LocalCellLe(e, ts[0], b, c) ensures LocalCellLe(e, ts[0], a, c) {
      }
    }
  }

  lemma {:induction false} OrdersCoincide(e: Engine, r: Request, ts: seq<OrderInput>, us: seq<OrderTerm>, a: Row, b: Row)
    requires OrdersAgree(e, r) && LocalOrder(e) && |ts| == |us|
    requires forall i :: 0 <= i < |ts| ==> OrderTermExact(r, ts[i])
    requires forall i :: 0 <= i < |ts| ==> us[i] == OrderTerm(ts[i].column, ts[i].descending, !ts[i].descending)
    ensures LocalLe(e, ts, a, b) == RemoteLe(e, us, a, b)
  {
    if ts != [] {
      assert OrderTermExact(r, ts[0]);
      assert LocalCellLe(e, ts[0], a, b) == RemoteCellLe(e, us[0], a, b);
      assert LocalCellLe(e, ts[0], b, a) == RemoteCellLe(e, us[0], b, a);
      OrdersCoincide(e, r, ts[1..], us[1..], a, b);
    }
  }

  // ----- windows

  lemma SentWindow(r: Request, plan: Plan, operation: Operator, k: nat, argv: seq<Argument>, rhs: nat -> Argument)
    requires Compiled(r) == Success(plan) && WellPosed(r) && Bound(plan, argv, rhs) && operation.IsWindow()
    requires SendsWindow(plan, operation, k)
    ensures var index := plan.constraints[k].argumentIndex;
      0 < index <= |argv| && RequestWindow(r, operation, rhs) == Some(argv[index - 1])
    ensures ConsumesWindow(r, |r.constraints|, operation)
  {
    var i := ConstraintOrigin(r, plan, k);
    assert HasWindow(r, operation, i);
    assert forall j: nat :: HasWindow(r, operation, j) ==> j == i;
  }

  lemma ConsumedWindowIsSent(r: Request, plan: Plan, operation: Operator)
    requires plan.constraints == AllConstraints(r) && operation.IsWindow()
    requires ConsumesWindow(r, |r.constraints|, operation)
    ensures exists k: nat :: SendsWindow(plan, operation, k)
  {
    var n := |r.constraints|;
    var i :| 0 <= i < n && r.constraints[i].operation == operation && WindowPushed(r, r.constraints[i]);
    WindowAt(r, n, i);
    assert SendsWindow(plan, operation, |Filters(r, n)| + |Windows(r, i)|);
  }

  ghost predicate Consumed(plan: Plan, operation: Operator) {
    if operation.Limit? then plan.flags.limitConsumed else plan.flags.offsetConsumed
  }

  lemma PlanWindowIs(r: Request, plan: Plan, operation: Operator, argv: seq<Argument>, rhs: nat -> Argument)
    requires Compiled(r) == Success(plan) && WellPosed(r) && Bound(plan, argv, rhs) && operation.IsWindow()
    ensures PlanWindow(plan, operation, argv) ==
            if Consumed(plan, operation) then RequestWindow(r, operation, rhs) else None
  {
    if ConsumesWindow(r, |r.constraints|, operation) {
      ConsumedWindowIsSent(r, plan, operation);
    }
    forall k: nat | SendsWindow(plan, operation, k)
      ensures var index := plan.constraints[k].argumentIndex;
        0 < index <= |argv| && RequestWindow(r, operation, rhs) == Some(argv[index - 1])
      ensures ConsumesWindow(r, |r.constraints|, operation)
    {
      SentWindow(r, plan, operation, k, argv, rhs);
    }
  }

  // ----- the theorem

  ghost predicate Skipped(r: Request, c: ConstraintInput) {
    IsFilter(c) && !Considered(r, c)
  }

  ghost predicate UsableWindow(r: Request, operation: Operator) {
    exists i: nat :: HasWindow(r, operation, i) && r.constraints[i].usable
  }

  ghost predicate UnusableWindow(r: Request, operation: Operator) {
    exists i: nat :: HasWindow(r, operation, i) && !r.constraints[i].usable
  }

  /** A caller can decide this before the call: either something is rechecked locally, or no
      usable LIMIT/OFFSET is offered, or every filter is usable on an existing column and a
      usable LIMIT does not come with an unusable OFFSET. */
  ghost predicate SafeRequest(r: Request) {
    || HasRecheck(r)
    || (!UsableWindow(r, Limit) && !UsableWindow(r, Offset))
    || ((forall i :: 0 <= i < |r.constraints| ==> !Skipped(r, r.constraints[i]))
        && !(UsableWindow(r, Limit) && UnusableWindow(r, Offset)))
  }

  ghost predicate Rectangular(r: Request, table: seq<Row>) {
    forall row :: row in table ==> |row| == |r.columns|
  }

  /** Remote filter and sort, then local recheck and sort, give the wanted rows in the wanted order. */
  lemma FilterAndSort(e: Engine, r: Request, plan: Plan, argv: seq<Argument>, rhs: nat -> Argument, table: seq<Row>)
    requires Compiled(r) == Success(plan) && WellPosed(r) && Agrees(e, r)
    requires Classified(r, rhs) && Bound(plan, argv, rhs) && Rectangular(r, table)
    ensures
      var sent := Select(table, row => Sent(e, plan, argv, row));
      var remote := if plan.flags.orderConsumed then Sort(sent, (a, b) => RemoteLe(e, plan.orderTerms, a, b)) else sent;
      var kept := Select(remote, row => Rechecked(e, r, plan, rhs, row));
      var sorted := if r.orderTerms != [] && !plan.flags.orderConsumed
                    then Sort(kept, (a, b) => LocalLe(e, r.orderTerms, a, b)) else kept;
      var wanted := Select(table, row => Wanted(e, r, rhs, row));
      sorted == if r.orderTerms != [] then Sort(wanted, (a, b) => LocalLe(e, r.orderTerms, a, b)) else wanted
  {
    var sentP, checkP, wantP := (row: Row) => Sent(e, plan, argv, row),
                                (row: Row) => Rechecked(e, r, plan, rhs, row), (row: Row) => Wanted(e, r, rhs, row);
    var localLe, remoteLe := (a: Row, b: Row) => LocalLe(e, r.orderTerms, a, b),
                             (a: Row, b: Row) => RemoteLe(e, plan.orderTerms, a, b);
    forall row | row in table ensures wantP(row) <==> sentP(row) && checkP(row) {
      RowVerdict(e, r, plan, argv, rhs, row);
    }
    var sent := Select(table, sentP);
    SelectSelect(table, sentP, checkP, wantP);
    if plan.flags.orderConsumed {
      LocalLePreorder(e, r.orderTerms);
      forall a, b ensures localLe(a, b) == remoteLe(a, b) {
        OrdersCoincide(e, r, r.orderTerms, plan.orderTerms, a, b);
      }
      SortAgrees(sent, localLe, remoteLe);
      SelectSort(sent, localLe, checkP);
    }
  }

  /** Nothing is left to recheck, so every row that was sent passes. */
  lemma NothingToRecheck(e: Engine, r: Request, plan: Plan, rhs: nat -> Argument, row: Row)
    requires Compiled(r) == Success(plan) && !HasRecheck(r)
    requires forall i :: 0 <= i < |r.constraints| ==> !Skipped(r, r.constraints[i])
    ensures Rechecked(e, r, plan, rhs, row)
  {
    var n := |r.constraints|;
    forall i | 0 <= i < n && IsFilter(r.constraints[i]) ensures Omitted(plan, r.constraints[i].sourceIndex) {
      assert !Skipped(r, r.constraints[i]) && !LeavesRecheck(r, r.constraints[i]);
      FilterAt(r, n, i);
      assert plan.constraints[|Filters(r, i)|] == Filters(r, n)[|Filters(r, i)|];
    }
  }

  /** With an unconsumed window the remote half returns every row it filtered and sorted. */
  lemma WindowsUnconsumed(r: Request, plan: Plan)
    requires Compiled(r) == Success(plan)
    ensures plan.flags.limitConsumed <==> !HasRecheck(r) && UsableWindow(r, Limit)
    ensures plan.flags.offsetConsumed <==> !HasRecheck(r) && UsableWindow(r, Offset)
  {
    forall operation: Operator | operation.IsWindow()
      ensures ConsumesWindow(r, |r.constraints|, operation) <==> !HasRecheck(r) && UsableWindow(r, operation)
    {
      if UsableWindow(r, operation) {
        var i: nat :| HasWindow(r, operation, i) && r.constraints[i].usable;
      }
      if ConsumesWindow(r, |r.constraints|, operation) {
        var i :| 0 <= i < |r.constraints| && r.constraints[i].operation == operation && WindowPushed(r, r.constraints[i]);
        assert HasWindow(r, operation, i);
      }
    }
  }

  /** Pushdown preserves the answer of every safe request, for every pair of engines that
      agree where the policy says they do, every table and every binding. */
  lemma PushdownPreservesAnswer(e: Engine, r: Request, plan: Plan, argv: seq<Argument>, rhs: nat -> Argument, table: seq<Row>)
    requires Compiled(r) == Success(plan) && WellPosed(r) && Agrees(e, r)
    requires Classified(r, rhs) && Bound(plan, argv, rhs) && Rectangular(r, table)
    requires SafeRequest(r)
    ensures PushedAnswer(e, r, plan, argv, rhs, table) == Direct(e, r, rhs, table)
  {
    WindowsUnconsumed(r, plan);
    PlanWindowIs(r, plan, Limit, argv, rhs);
    PlanWindowIs(r, plan, Offset, argv, rhs);
    FilterAndSort(e, r, plan, argv, rhs, table);
    if plan.flags.limitConsumed || plan.flags.offsetConsumed {
      forall row ensures Rechecked(e, r, plan, rhs, row) {
        NothingToRecheck(e, r, plan, rhs, row);
      }
      var remote := RemoteRows(e, plan, argv, table);
      SelectAll(remote, row => Rechecked(e, r, plan, rhs, row));
      if plan.flags.limitConsumed && !plan.flags.offsetConsumed { OffsetAbsent(r, rhs); }
      WindowedAnswer(e, r, plan, argv, rhs, table, remote);
    }
  }

  /** What the remote half has before its windows. */
  ghost function RemoteRows(e: Engine, plan: Plan, argv: seq<Argument>, table: seq<Row>): seq<Row> {
    var sent := Select(table, row => Sent(e, plan, argv, row));
    if plan.flags.orderConsumed then Sort(sent, (a, b) => RemoteLe(e, plan.orderTerms, a, b)) else sent
  }

  /** A usable LIMIT was taken and no usable OFFSET, so no OFFSET was offered at all. */
  lemma OffsetAbsent(r: Request, rhs: nat -> Argument)
    requires !UsableWindow(r, Offset) && !UnusableWindow(r, Offset)
    ensures RequestWindow(r, Offset, rhs).None?
  {
    assert forall i: nat :: HasWindow(r, Offset, i) ==> UsableWindow(r, Offset) || UnusableWindow(r, Offset);
  }

  lemma WindowedAnswer(e: Engine, r: Request, plan: Plan, argv: seq<Argument>, rhs: nat -> Argument, table: seq<Row>, rows: seq<Row>)
    requires rows == RemoteRows(e, plan, argv, table) && (r.orderTerms == [] || plan.flags.orderConsumed)
    requires plan.flags.limitConsumed || plan.flags.offsetConsumed
    requires PlanWindow(plan, Limit, argv) == if plan.flags.limitConsumed then RequestWindow(r, Limit, rhs) else None
    requires PlanWindow(plan, Offset, argv) == if plan.flags.offsetConsumed then RequestWindow(r, Offset, rhs) else None
    requires plan.flags.limitConsumed && !plan.flags.offsetConsumed ==> RequestWindow(r, Offset, rhs).None?
    requires forall row :: Rechecked(e, r, plan, rhs, row)
    ensures PushedAnswer(e, r, plan, argv, rhs, table)
            == Take(Skip(rows, RequestWindow(r, Offset, rhs)), RequestWindow(r, Limit, rhs))
  {
    SelectAll(Remote(e, plan, argv, table), row => Rechecked(e, r, plan, rhs, row));
  }
}
