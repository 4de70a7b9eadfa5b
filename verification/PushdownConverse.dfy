/** Outside the safe requests pushdown really changes answers: for every unsafe request there
    are engines that agree with the exactness policy, a table and a binding that show it. */
module PushdownConverse {
  import opened Options
  import opened Plans
  import opened Planner
  import PlanBookkeeping
  import opened RowSequences
  import opened Pushdown

  // ----- every compiled plan can be bound

  ghost function Arguments(cs: seq<PlanConstraint>, rhs: nat -> Argument): seq<Argument> {
    if cs == [] then []
    else
      var last := cs[|cs| - 1];
      Arguments(cs[..|cs| - 1], rhs) + (if last.argumentIndex != 0 then [rhs(last.sourceIndex)] else [])
  }

  lemma LastIndex(indexes: seq<nat>, last: nat, n: nat)
    requires indexes + [last] == PlanBookkeeping.UpTo(n)
    ensures n > 0 && last == n && indexes == PlanBookkeeping.UpTo(n - 1)
  {
    assert |indexes| + 1 == n;
    assert last == PlanBookkeeping.UpTo(n)[n - 1] == n;
    assert indexes == PlanBookkeeping.UpTo(n)[..n - 1] == PlanBookkeeping.UpTo(n - 1);
  }

  lemma {:induction false} ArgumentsBind(cs: seq<PlanConstraint>, n: nat, rhs: nat -> Argument)
    requires PlanBookkeeping.ArgumentIndexes(cs) == PlanBookkeeping.UpTo(n)
    ensures |Arguments(cs, rhs)| == n
    ensures forall k :: 0 <= k < |cs| && cs[k].argumentIndex != 0 ==>
      cs[k].argumentIndex <= n && Arguments(cs, rhs)[cs[k].argumentIndex - 1] == rhs(cs[k].sourceIndex)
  {
    if cs != [] {
      var front, last := cs[..|cs| - 1], cs[|cs| - 1];
      if last.argumentIndex != 0 {
        LastIndex(PlanBookkeeping.ArgumentIndexes(front), last.argumentIndex, n);
        ArgumentsBind(front, n - 1, rhs);
      } else {
        ArgumentsBind(front, n, rhs);
      }
    }
  }

  lemma BindingExists(r: Request, plan: Plan, rhs: nat -> Argument) returns (argv: seq<Argument>)
    requires Compiled(r) == Success(plan)
    ensures Bound(plan, argv, rhs)
  {
    PlanBookkeeping.ArgumentsAreNumberedInOrder(r, plan);
    argv := Bind(plan, rhs);
  }

  lemma Bind(plan: Plan, rhs: nat -> Argument) returns (argv: seq<Argument>)
    requires PlanBookkeeping.ArgumentIndexes(plan.constraints) == PlanBookkeeping.UpTo(plan.argumentCount)
    ensures Bound(plan, argv, rhs)
  {
    ArgumentsBind(plan.constraints, plan.argumentCount, rhs);
    argv := Arguments(plan.constraints, rhs);
  }

  // ----- the witness: a good row passes everything, a bad row fails what was skipped

  const MARK: Argument := Scalar(Text("x"))

  ghost function WitnessEngine(): Engine {
    Engine((op, cell) => true,
           (op, nullSafe, cell, a) => a != MARK || cell == Integer(2),
           (op, column, row, a) => row != [] && row[0] == Integer(2),
           (oid, op, nullSafe, cell, a) => a != MARK || cell == Integer(2),
           (x, y) => true,
           (c, x, y) => true)
  }

  function Sample(c: ValueClass): Argument {
    match c
    case Unknown => Scalar(Null)
    case NullClass => Scalar(Null)
    case IntegerClass => Scalar(Integer(0))
    case RealClass => Scalar(Real(0.0))
    case TextClass => Scalar(Text(""))
    case BlobClass => Scalar(Blob([]))
  }

  ghost function WitnessArgument(c: ConstraintInput, limit: int, offset: int): Argument {
    if c.operation.Limit? then Scalar(Integer(limit))
    else if c.operation.Offset? then Scalar(Integer(offset))
    else if !c.usable then MARK
    else Sample(c.valueClass)
  }

  ghost predicate From(r: Request, source: nat, i: nat) {
    i < |r.constraints| && r.constraints[i].sourceIndex == source
  }

  ghost function WitnessSide(r: Request, limit: int, offset: int, source: nat): Argument {
    if exists i: nat :: From(r, source, i)
    then var i: nat :| From(r, source, i); WitnessArgument(r.constraints[i], limit, offset)
    else Scalar(Null)
  }

  ghost function WitnessSides(r: Request, limit: int, offset: int): nat -> Argument {
    (source: nat) => WitnessSide(r, limit, offset, source)
  }

  lemma SideOf(r: Request, limit: int, offset: int, i: nat)
    requires WellPosed(r) && i < |r.constraints|
    ensures WitnessSides(r, limit, offset)(r.constraints[i].sourceIndex) == WitnessArgument(r.constraints[i], limit, offset)
  {
    var source := r.constraints[i].sourceIndex;
    assert From(r, source, i);
    assert forall j: nat :: From(r, source, j) ==> j == i;
  }

  lemma SidesClassified(r: Request, limit: int, offset: int)
    requires WellPosed(r)
    ensures Classified(r, WitnessSides(r, limit, offset))
  {
    forall i | 0 <= i < |r.constraints| ensures ClassifiedConstraint(r.constraints[i], WitnessSides(r, limit, offset)) {
      SideOf(r, limit, offset, i);
    }
  }

  lemma WindowIs(r: Request, operation: Operator, limit: int, offset: int)
    requires WellPosed(r) && operation.IsWindow()
    ensures RequestWindow(r, operation, WitnessSides(r, limit, offset)) ==
            if UsableWindow(r, operation) || UnusableWindow(r, operation)
            then Some(Scalar(Integer(if operation.Limit? then limit else offset))) else None
  {
    forall i: nat | HasWindow(r, operation, i)
      ensures WitnessSides(r, limit, offset)(r.constraints[i].sourceIndex) ==
              Scalar(Integer(if operation.Limit? then limit else offset))
      ensures UsableWindow(r, operation) || UnusableWindow(r, operation)
    {
      SideOf(r, limit, offset, i);
    }
  }

  ghost function Uniform(r: Request, n: int): Row {
    seq(|r.columns|, _ => Integer(n))
  }

  lemma GoodRow(r: Request, limit: int, offset: int)
    requires ValidRequest(r)
    ensures Wanted(WitnessEngine(), r, WitnessSides(r, limit, offset), Uniform(r, 2))
  {
  }

  lemma BadRow(r: Request, limit: int, offset: int)
    requires WellPosed(r) && ValidRequest(r) && exists i :: 0 <= i < |r.constraints| && Skipped(r, r.constraints[i])
    ensures !Wanted(WitnessEngine(), r, WitnessSides(r, limit, offset), Uniform(r, 1))
  {
    var i :| 0 <= i < |r.constraints| && Skipped(r, r.constraints[i]);
    SideOf(r, limit, offset, i);
    assert WellPosedConstraint(r.constraints[i]);
    assert !LocalHolds(WitnessEngine(), r, r.constraints[i], Uniform(r, 1), WitnessSides(r, limit, offset));
  }

  lemma AnyRowIsSent(r: Request, plan: Plan, argv: seq<Argument>, limit: int, offset: int, n: int)
    requires Compiled(r) == Success(plan) && WellPosed(r) && Bound(plan, argv, WitnessSides(r, limit, offset))
    ensures Sent(WitnessEngine(), plan, argv, Uniform(r, n))
  {
    forall k | 0 <= k < |plan.constraints| ensures RemoteHolds(WitnessEngine(), plan.constraints[k], Uniform(r, n), argv) {
      var i := ConstraintOrigin(r, plan, k);
      SideOf(r, limit, offset, i);
    }
  }

  lemma {:induction false} OrderIsFlat(r: Request, ts: seq<OrderInput>, us: seq<OrderTerm>, m: int, n: int)
    ensures LocalLe(WitnessEngine(), ts, Uniform(r, m), Uniform(r, n))
    ensures RemoteLe(WitnessEngine(), us, Uniform(r, m), Uniform(r, n))
  {
    if ts != [] {
      OrderIsFlat(r, ts[1..], us, m, n);
    } else if us != [] {
      OrderIsFlat(r, ts, us[1..], m, n);
    }
  }

  ghost function Kept(a: Row, b: Row, p: Row -> bool): seq<Row> {
    if p(a) then (if p(b) then [a, b] else [a]) else if p(b) then [b] else []
  }

  lemma SelectPair(a: Row, b: Row, p: Row -> bool)
    ensures Select([a, b], p) == Kept(a, b, p)
    ensures Select([a], p) == if p(a) then [a] else []
  {
    assert [a, b][1..] == [b] && [a][1..] == [] && [b][1..] == [];
    assert Select([b], p) == if p(b) then [b] else [];
  }

  ghost predicate Setup(r: Request, plan: Plan, argv: seq<Argument>, limit: int, offset: int) {
    Compiled(r) == Success(plan) && WellPosed(r) && Bound(plan, argv, WitnessSides(r, limit, offset))
  }

  lemma FlatOrder(r: Request, plan: Plan, m: int, n: int, x: Row, y: Row)
    requires x == Uniform(r, m) || x == Uniform(r, n)
    requires y == Uniform(r, m) || y == Uniform(r, n)
    ensures LocalLe(WitnessEngine(), r.orderTerms, x, y) && RemoteLe(WitnessEngine(), plan.orderTerms, x, y)
  {
    OrderIsFlat(r, r.orderTerms, plan.orderTerms, if x == Uniform(r, m) then m else n, if y == Uniform(r, m) then m else n);
  }

  lemma DirectAnswer(r: Request, plan: Plan, limit: int, offset: int, m: int, n: int)
    ensures
      var e, rhs, a, b := WitnessEngine(), WitnessSides(r, limit, offset), Uniform(r, m), Uniform(r, n);
      Direct(e, r, rhs, [a, b]) ==
      Take(Skip(Kept(a, b, row => Wanted(e, r, rhs, row)), RequestWindow(r, Offset, rhs)), RequestWindow(r, Limit, rhs))
  {
    var e, rhs, a, b := WitnessEngine(), WitnessSides(r, limit, offset), Uniform(r, m), Uniform(r, n);
    var wantedP := (row: Row) => Wanted(e, r, rhs, row);
    SelectPair(a, b, wantedP);
    var wanted := Select([a, b], wantedP);
    forall x, y | x in wanted && y in wanted ensures LocalLe(e, r.orderTerms, x, y) {
      FlatOrder(r, plan, m, n, x, y);
    }
    SortIdentity(wanted, (x, y) => LocalLe(e, r.orderTerms, x, y));
  }

  lemma RemoteAnswer(r: Request, plan: Plan, argv: seq<Argument>, limit: int, offset: int, m: int, n: int)
    requires Setup(r, plan, argv, limit, offset)
    ensures
      var e, table := WitnessEngine(), [Uniform(r, m), Uniform(r, n)];
      Remote(e, plan, argv, table) == Take(Skip(table, PlanWindow(plan, Offset, argv)), PlanWindow(plan, Limit, argv))
  {
    var e, a, b := WitnessEngine(), Uniform(r, m), Uniform(r, n);
    var table := [a, b];
    AnyRowIsSent(r, plan, argv, limit, offset, m);
    AnyRowIsSent(r, plan, argv, limit, offset, n);
    SelectAll(table, row => Sent(e, plan, argv, row));
    forall x, y | x in table && y in table ensures RemoteLe(e, plan.orderTerms, x, y) {
      FlatOrder(r, plan, m, n, x, y);
    }
    SortIdentity(table, (x, y) => RemoteLe(e, plan.orderTerms, x, y));
  }

  lemma Verdicts(r: Request, plan: Plan, argv: seq<Argument>, limit: int, offset: int)
    requires Setup(r, plan, argv, limit, offset)
    ensures var e, rhs := WitnessEngine(), WitnessSides(r, limit, offset);
      && Wanted(e, r, rhs, Uniform(r, 2)) && Rechecked(e, r, plan, rhs, Uniform(r, 2))
      && ((exists i :: 0 <= i < |r.constraints| && Skipped(r, r.constraints[i])) ==>
            !Wanted(e, r, rhs, Uniform(r, 1)) && !Rechecked(e, r, plan, rhs, Uniform(r, 1)))
  {
    SidesClassified(r, limit, offset);
    WitnessAgrees(r);
    GoodRow(r, limit, offset);
    RowVerdict(WitnessEngine(), r, plan, argv, WitnessSides(r, limit, offset), Uniform(r, 2));
    if exists i :: 0 <= i < |r.constraints| && Skipped(r, r.constraints[i]) {
      BadRow(r, limit, offset);
      AnyRowIsSent(r, plan, argv, limit, offset, 1);
      RowVerdict(WitnessEngine(), r, plan, argv, WitnessSides(r, limit, offset), Uniform(r, 1));
    }
  }

  lemma WindowValues(r: Request, plan: Plan, argv: seq<Argument>, limit: int, offset: int)
    requires Setup(r, plan, argv, limit, offset) && !HasRecheck(r)
    ensures plan.flags.limitConsumed == UsableWindow(r, Limit) && plan.flags.offsetConsumed == UsableWindow(r, Offset)
    ensures PlanWindow(plan, Limit, argv) == if UsableWindow(r, Limit) then Some(Scalar(Integer(limit))) else None
    ensures PlanWindow(plan, Offset, argv) == if UsableWindow(r, Offset) then Some(Scalar(Integer(offset))) else None
  {
    var rhs := WitnessSides(r, limit, offset);
    WindowsUnconsumed(r, plan);
    PlanWindowIs(r, plan, Limit, argv, rhs);
    PlanWindowIs(r, plan, Offset, argv, rhs);
    WindowIs(r, Limit, limit, offset);
    WindowIs(r, Offset, limit, offset);
  }

  /** A single remote row is kept locally, or not, by the recheck alone. */
  lemma LocalOfOne(e: Engine, r: Request, plan: Plan, rhs: nat -> Argument, row: Row)
    ensures var kept := if Rechecked(e, r, plan, rhs, row) then [row] else [];
      Local(e, r, plan, rhs, [row]) ==
      (var skipped := if plan.flags.offsetConsumed then kept else Skip(kept, RequestWindow(r, Offset, rhs));
       if plan.flags.limitConsumed then skipped else Take(skipped, RequestWindow(r, Limit, rhs)))
  {
    SelectPair(row, row, x => Rechecked(e, r, plan, rhs, x));
  }

  lemma WitnessAgrees(r: Request)
    ensures Agrees(WitnessEngine(), r)
  {
  }

  ghost predicate SomeSkipped(r: Request) {
    exists i :: 0 <= i < |r.constraints| && Skipped(r, r.constraints[i])
  }

  /** The two ways to be unsafe. */
  lemma UnsafeCases(r: Request)
    requires !SafeRequest(r)
    ensures !HasRecheck(r)
    ensures (SomeSkipped(r) && (UsableWindow(r, Limit) || UsableWindow(r, Offset)))
            || (!SomeSkipped(r) && UsableWindow(r, Limit) && UnusableWindow(r, Offset))
  {
  }

  /** A filter was skipped and a window is sent: LIMIT 1, or else OFFSET 1. */
  ghost predicate SkippedSetup(r: Request, plan: Plan, argv: seq<Argument>, limit: int, offset: int) {
    && Setup(r, plan, argv, limit, offset) && !HasRecheck(r)
    && (UsableWindow(r, Limit) || UsableWindow(r, Offset))
    && SomeSkipped(r)
    && if UsableWindow(r, Limit) then limit == 1 && offset == 0 else limit == -1 && offset == 1
  }

  lemma SkippedRemote(r: Request, plan: Plan, argv: seq<Argument>, limit: int, offset: int)
    requires SkippedSetup(r, plan, argv, limit, offset)
    ensures Remote(WitnessEngine(), plan, argv, [Uniform(r, 1), Uniform(r, 2)])
            == [if UsableWindow(r, Limit) then Uniform(r, 1) else Uniform(r, 2)]
  {
    RemoteAnswer(r, plan, argv, limit, offset, 1, 2);
    WindowValues(r, plan, argv, limit, offset);
  }

  lemma SkippedDirect(r: Request, plan: Plan, argv: seq<Argument>, limit: int, offset: int)
    requires SkippedSetup(r, plan, argv, limit, offset)
    ensures Direct(WitnessEngine(), r, WitnessSides(r, limit, offset), [Uniform(r, 1), Uniform(r, 2)])
            == if UsableWindow(r, Limit) then [Uniform(r, 2)] else []
  {
    Verdicts(r, plan, argv, limit, offset);
    DirectAnswer(r, plan, limit, offset, 1, 2);
    WindowIs(r, Limit, limit, offset);
    WindowIs(r, Offset, limit, offset);
  }

  lemma SkippedLocal(r: Request, plan: Plan, argv: seq<Argument>, limit: int, offset: int)
    requires SkippedSetup(r, plan, argv, limit, offset)
    ensures var e, rhs := WitnessEngine(), WitnessSides(r, limit, offset);
            if UsableWindow(r, Limit) then Local(e, r, plan, rhs, [Uniform(r, 1)]) == []
            else Local(e, r, plan, rhs, [Uniform(r, 2)]) == [Uniform(r, 2)]
  {
    var e, rhs := WitnessEngine(), WitnessSides(r, limit, offset);
    Verdicts(r, plan, argv, limit, offset);
    WindowValues(r, plan, argv, limit, offset);
    WindowIs(r, Limit, limit, offset);
    WindowIs(r, Offset, limit, offset);
    LocalOfOne(e, r, plan, rhs, if UsableWindow(r, Limit) then Uniform(r, 1) else Uniform(r, 2));
  }

  /** LIMIT or OFFSET was consumed over a skipped filter. */
  lemma SkippedFilterBreaks(r: Request, plan: Plan, argv: seq<Argument>, limit: int, offset: int)
    requires SkippedSetup(r, plan, argv, limit, offset)
    ensures var e, rhs, table := WitnessEngine(), WitnessSides(r, limit, offset), [Uniform(r, 1), Uniform(r, 2)];
      PushedAnswer(e, r, plan, argv, rhs, table) != Direct(e, r, rhs, table)
  {
    SkippedRemote(r, plan, argv, limit, offset);
    SkippedLocal(r, plan, argv, limit, offset);
    SkippedDirect(r, plan, argv, limit, offset);
  }

  lemma UnusableIsNotUsable(r: Request, operation: Operator)
    requires WellPosed(r) && operation.IsWindow() && UnusableWindow(r, operation)
    ensures !UsableWindow(r, operation)
  {
    var i: nat :| HasWindow(r, operation, i) && !r.constraints[i].usable;
    assert forall j: nat :: HasWindow(r, operation, j) ==> j == i;
  }

  /** Of two equal rows the server sends one, and the local OFFSET drops it. */
  lemma LocalOffsetPushed(r: Request, plan: Plan, argv: seq<Argument>)
    requires Setup(r, plan, argv, 1, 1) && !HasRecheck(r)
    requires UsableWindow(r, Limit) && UnusableWindow(r, Offset)
    ensures PushedAnswer(WitnessEngine(), r, plan, argv, WitnessSides(r, 1, 1), [Uniform(r, 2), Uniform(r, 2)]) == []
  {
    var e, rhs, good := WitnessEngine(), WitnessSides(r, 1, 1), Uniform(r, 2);
    RemoteAnswer(r, plan, argv, 1, 1, 2, 2);
    WindowValues(r, plan, argv, 1, 1);
    UnusableIsNotUsable(r, Offset);
    assert Remote(e, plan, argv, [good, good]) == [good];
    WindowIs(r, Offset, 1, 1);
    LocalOfOne(e, r, plan, rhs, good);
  }

  lemma LocalOffsetDirect(r: Request, plan: Plan, argv: seq<Argument>)
    requires Setup(r, plan, argv, 1, 1) && UsableWindow(r, Limit) && UnusableWindow(r, Offset)
    ensures Direct(WitnessEngine(), r, WitnessSides(r, 1, 1), [Uniform(r, 2), Uniform(r, 2)]) == [Uniform(r, 2)]
  {
    Verdicts(r, plan, argv, 1, 1);
    DirectAnswer(r, plan, 1, 1, 2, 2);
    WindowIs(r, Limit, 1, 1);
    WindowIs(r, Offset, 1, 1);
  }

  /** LIMIT was consumed although an OFFSET stayed local. */
  lemma LocalOffsetBreaks(r: Request, plan: Plan, argv: seq<Argument>)
    requires Setup(r, plan, argv, 1, 1) && !HasRecheck(r)
    requires UsableWindow(r, Limit) && UnusableWindow(r, Offset)
    ensures var e, rhs, table := WitnessEngine(), WitnessSides(r, 1, 1), [Uniform(r, 2), Uniform(r, 2)];
      PushedAnswer(e, r, plan, argv, rhs, table) != Direct(e, r, rhs, table)
  {
    LocalOffsetPushed(r, plan, argv);
    LocalOffsetDirect(r, plan, argv);
  }

  /** Every unsafe request has engines, a table and a binding on which the answer changes. */
  lemma UnsafeRequestChangesAnswer(r: Request, plan: Plan)
    returns (e: Engine, rhs: nat -> Argument, argv: seq<Argument>, table: seq<Row>)
    requires Compiled(r) == Success(plan) && WellPosed(r) && !SafeRequest(r)
    ensures Agrees(e, r) && Classified(r, rhs) && Bound(plan, argv, rhs) && Rectangular(r, table)
    ensures PushedAnswer(e, r, plan, argv, rhs, table) != Direct(e, r, rhs, table)
  {
    var skipped := SomeSkipped(r);
    UnsafeCases(r);
    var limit := if skipped && !UsableWindow(r, Limit) then -1 else 1;
    var offset := if skipped && UsableWindow(r, Limit) then 0 else 1;
    e, rhs := WitnessEngine(), WitnessSides(r, limit, offset);
    argv := BindingExists(r, plan, rhs);
    WitnessAgrees(r);
    SidesClassified(r, limit, offset);
    if skipped {
      table := [Uniform(r, 1), Uniform(r, 2)];
      SkippedFilterBreaks(r, plan, argv, limit, offset);
    } else {
      table := [Uniform(r, 2), Uniform(r, 2)];
      LocalOffsetBreaks(r, plan, argv);
    }
  }

  // ----- unsafe requests exist

  function Unused(): (bits: Bits64) { seq(64, _ => false) }

  /** One column, a filter SQLite keeps for itself, and a LIMIT it offers. */
  function SkippedFilterRequest(): Request {
    var column := Column(23, Capabilities(true, true, true, false));
    var filter := ConstraintInput(0, Eq, IntegerClass, 0, false, false, false);
    var limit := ConstraintInput(-1, Limit, IntegerClass, 1, true, false, false);
    Request(0, [column], Unused(), [filter, limit], [], [], 0, 0, 0, 0)
  }

  /** A LIMIT SQLite offers beside an OFFSET it keeps for itself. */
  function LocalOffsetRequest(): Request {
    var column := Column(23, Capabilities(true, true, true, false));
    var limit := ConstraintInput(-1, Limit, IntegerClass, 0, true, false, false);
    var offset := ConstraintInput(-1, Offset, IntegerClass, 1, false, false, false);
    Request(0, [column], Unused(), [limit, offset], [], [], 0, 0, 0, 0)
  }

  lemma OneColumnCompiles(r: Request)
    requires ValidRequest(r) && |r.columns| == 1 && r.keyColumns == [] && r.columnsUsed == Unused() && r.orderTerms == []
    requires PushedColumns(r, |r.constraints|) == []
    ensures Compiled(r).Success?
  {
    assert UsedColumns(r, 1) == UsedColumns(r, 0) + [];
    assert WantedColumns(r) == [0];
    assert Project([0]) == AddProjection(Project([0][..0]).value, 0);
  }

  /** Both kinds of unsafe request compile. */
  lemma UnsafeRequestsExist()
    ensures var r := SkippedFilterRequest(); Compiled(r).Success? && WellPosed(r) && !SafeRequest(r)
    ensures var r := LocalOffsetRequest(); Compiled(r).Success? && WellPosed(r) && !SafeRequest(r)
  {
    SkippedFilterUnsafe();
    LocalOffsetUnsafe();
  }

  lemma UnsafeBy(r: Request, limit: nat, other: nat)
    requires !HasRecheck(r) && HasWindow(r, Limit, limit) && r.constraints[limit].usable && other < |r.constraints|
    requires Skipped(r, r.constraints[other]) || (HasWindow(r, Offset, other) && !r.constraints[other].usable)
    ensures !SafeRequest(r)
  {
  }

  lemma SkippedFilterCompiles()
    ensures Compiled(SkippedFilterRequest()).Success? && WellPosed(SkippedFilterRequest())
  {
    var r := SkippedFilterRequest();
    assert PushedColumns(r, 2) == PushedColumns(r, 1) + [];
    OneColumnCompiles(r);
  }

  lemma SkippedFilterUnsafe()
    ensures var r := SkippedFilterRequest(); Compiled(r).Success? && WellPosed(r) && !SafeRequest(r)
  {
    SkippedFilterCompiles();
    UnsafeBy(SkippedFilterRequest(), 1, 0);
  }

  lemma LocalOffsetCompiles()
    ensures Compiled(LocalOffsetRequest()).Success? && WellPosed(LocalOffsetRequest())
  {
    var r := LocalOffsetRequest();
    assert PushedColumns(r, 2) == PushedColumns(r, 1) + [];
    OneColumnCompiles(r);
  }

  lemma LocalOffsetUnsafe()
    ensures var r := LocalOffsetRequest(); Compiled(r).Success? && WellPosed(r) && !SafeRequest(r)
  {
    LocalOffsetCompiles();
    UnsafeBy(LocalOffsetRequest(), 0, 1);
  }

  /** So pushdown does change an answer. */
  lemma AnswerCanChange() returns (r: Request, plan: Plan, e: Engine, rhs: nat -> Argument, argv: seq<Argument>, table: seq<Row>)
    ensures Compiled(r) == Success(plan) && WellPosed(r)
    ensures Agrees(e, r) && Classified(r, rhs) && Bound(plan, argv, rhs) && Rectangular(r, table)
    ensures PushedAnswer(e, r, plan, argv, rhs, table) != Direct(e, r, rhs, table)
  {
    UnsafeRequestsExist();
    r := SkippedFilterRequest();
    plan := Compiled(r).value;
    e, rhs, argv, table := UnsafeRequestChangesAnswer(r, plan);
  }
}
