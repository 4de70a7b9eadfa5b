/** When a valid request is refused for its projection. Adding a column to a full projection
    fails, even when the column is already there, so a table of the full width cannot be read
    whole and filtered or sorted at the same time. */
module ProjectionLimit {
  import opened Options
  import opened Plans
  import opened Planner
  import opened PlanBookkeeping

  /** The columns of pushed constraints and exact order terms, in the order they are added. */
  function Added(r: Request): seq<nat> {
    PushedColumns(r, |r.constraints|) + if OrderExact(r) then OrderColumns(r, |r.orderTerms|) else []
  }

  /** Every column number there can be. */
  ghost predicate Covers(columns: seq<nat>) {
    forall c: nat :: c < MAX_COLUMNS ==> c in columns
  }

  ghost function Below(n: nat): (s: set<int>)
    ensures |s| == n && forall x :: x in s <==> 0 <= x < n
  {
    if n == 0 then {} else Below(n - 1) + {n - 1}
  }

  lemma {:induction false} ElementsCounted(s: seq<nat>)
    ensures |(set x: int | x in s)| <= |s|
  {
    if s != [] {
      var n := |s| - 1;
      ElementsCounted(s[..n]);
      assert (set x: int | x in s) == (set x: int | x in s[..n]) + {s[n] as int};
    }
  }

  lemma CoverIsLong(columns: seq<nat>, width: nat)
    requires width == MAX_COLUMNS && Covers(columns)
    ensures |columns| >= MAX_COLUMNS
  {
    ElementsCounted(columns);
    SubsetSize(Below(width), set x: int | x in columns);
  }

  /** A projection of distinct columns is full exactly when it has them all. */
  lemma FullIff(projection: seq<nat>, width: nat)
    requires width == MAX_COLUMNS && NoDuplicates(projection) && forall c :: c in projection ==> c < MAX_COLUMNS
    ensures |projection| <= MAX_COLUMNS && (|projection| == MAX_COLUMNS <==> Covers(projection))
  {
    var elements := set x: int | x in projection;
    DistinctColumnsCounted(projection);
    SubsetSize(elements, Below(width));
    if |projection| == MAX_COLUMNS {
      SubsetOfEqualSize(elements, Below(width));
      forall c: nat | c < MAX_COLUMNS ensures c in projection { assert c as int in Below(width); }
    }
    if Covers(projection) { CoverIsLong(projection, width); }
  }

  ghost predicate AllBelow(columns: seq<nat>, bound: nat) {
    forall i :: 0 <= i < |columns| ==> columns[i] < bound
  }

  lemma CoversMore(front: seq<nat>, columns: seq<nat>)
    requires front <= columns && Covers(front)
    ensures Covers(columns)
  {
    forall c: nat | c < MAX_COLUMNS ensures c in columns {
      assert c in front;
      var i :| 0 <= i < |front| && front[i] == c;
      assert columns[i] == c;
    }
  }

  /** Adding fails exactly when all columns were there before the last one was added. */
  lemma {:induction false} ProjectFailsIff(columns: seq<nat>)
    requires AllBelow(columns, MAX_COLUMNS)
    ensures Project(columns).None? <==> columns != [] && Covers(columns[..|columns| - 1])
  {
    if columns != [] {
      var front := columns[..|columns| - 1];
      ProjectFailsIff(front);
      if Project(front).Some? {
        ProjectIsSet(front);
        FullIff(Project(front).value, MAX_COLUMNS);
      } else {
        CoversMore(front[..|front| - 1], front);
      }
    }
  }

  lemma WantedAre(r: Request)
    ensures WantedColumns(r) == BaseColumns(r) + Added(r)
  {
  }

  lemma {:induction false} UsedDistinct(r: Request, n: nat)
    ensures NoDuplicates(UsedColumns(r, n)) && |UsedColumns(r, n)| <= n
  {
    UsedColumnsAre(r, n);
    if n > 0 {
      UsedDistinct(r, n - 1);
      UsedColumnsAre(r, n - 1);
    }
  }

  lemma WantedBelow(r: Request)
    requires ValidRequest(r)
    ensures AllBelow(BaseColumns(r), |r.columns|) && AllBelow(Added(r), |r.columns|)
    ensures |Added(r)| <= MAX_CONSTRAINTS + MAX_ORDER_TERMS
  {
    UsedColumnsAre(r, |r.columns|);
    PushedColumnsAre(r, |r.constraints|);
    PushedShort(r, |r.constraints|);
    forall i | 0 <= i < |BaseColumns(r)| ensures BaseColumns(r)[i] < |r.columns| {
      assert BaseColumns(r)[i] in BaseColumns(r);
    }
    var pushed := PushedColumns(r, |r.constraints|);
    forall i | 0 <= i < |Added(r)| ensures Added(r)[i] < |r.columns| {
      if i < |pushed| { assert Added(r)[i] == pushed[i] && pushed[i] in pushed; }
    }
  }

  lemma {:induction false} PushedShort(r: Request, n: nat)
    requires n <= |r.constraints|
    ensures |PushedColumns(r, n)| <= n
  {
    if n > 0 { PushedShort(r, n - 1); }
  }

  /** The used columns alone always fit. */
  lemma BaseFits(r: Request)
    requires ValidRequest(r)
    ensures Project(BaseColumns(r)).Some?
  {
    UsedDistinct(r, |r.columns|);
    ProjectSucceeds(BaseColumns(r));
  }

  /** What was there before the last addition covers all columns exactly when each is used or added. */
  lemma BeforeLastCovers(r: Request, added: seq<nat>)
    requires ValidRequest(r) && |added| < MAX_CONSTRAINTS + MAX_ORDER_TERMS && AllBelow(added, |r.columns|)
    ensures Covers(BaseColumns(r) + added) <==>
      |r.columns| == MAX_COLUMNS && forall c: nat :: c < MAX_COLUMNS ==> ColumnUsed(r, c) || c in added
  {
    var used := UsedColumns(r, |r.columns|);
    UsedColumnsAre(r, |r.columns|);
    if used == [] {
      NothingUsed(r, added);
    } else {
      forall c: nat ensures c in BaseColumns(r) + added <==> (c < |r.columns| && ColumnUsed(r, c)) || c in added {
        assert c in used <==> c < |r.columns| && ColumnUsed(r, c);
      }
      if Covers(BaseColumns(r) + added) { assert (MAX_COLUMNS - 1) in BaseColumns(r) + added; }
    }
  }

  /** With no column used the additions are too few to cover anything. */
  lemma NothingUsed(r: Request, added: seq<nat>)
    requires UsedColumns(r, |r.columns|) == [] && |added| < MAX_CONSTRAINTS + MAX_ORDER_TERMS
    ensures !Covers(BaseColumns(r) + added)
    ensures |r.columns| == MAX_COLUMNS ==> exists c: nat :: c < MAX_COLUMNS && !ColumnUsed(r, c) && c !in added
  {
    UsedColumnsAre(r, |r.columns|);
    if Covers(BaseColumns(r) + added) { CoverIsLong(BaseColumns(r) + added, MAX_COLUMNS); }
    if Covers(added) { CoverIsLong(added, MAX_COLUMNS); }
    var c: nat :| c < MAX_COLUMNS && c !in added;
    assert c < |r.columns| ==> (c in UsedColumns(r, |r.columns|) <==> ColumnUsed(r, c));
  }

  /** The request is refused exactly for a table of the full width, with something added, where
      every column is used or added before the last addition. */
  lemma LimitExceededIff(r: Request)
    ensures Compiled(r) == Failure(LimitExceeded) <==>
      && ValidRequest(r) && |r.columns| == MAX_COLUMNS && Added(r) != []
      && forall c: nat :: c < MAX_COLUMNS ==> ColumnUsed(r, c) || c in Added(r)[..|Added(r)| - 1]
  {
    if ValidRequest(r) {
      WantedAre(r);
      WantedBelow(r);
      if Added(r) == [] {
        BaseFits(r);
        assert WantedColumns(r) == BaseColumns(r);
      } else {
        LastAddition(r, Added(r));
      }
    }
  }

  lemma LastAddition(r: Request, added: seq<nat>)
    requires ValidRequest(r) && added != [] && WantedColumns(r) == BaseColumns(r) + added
    requires |added| <= MAX_CONSTRAINTS + MAX_ORDER_TERMS && AllBelow(added, |r.columns|)
    ensures Project(WantedColumns(r)).None? <==>
      |r.columns| == MAX_COLUMNS && forall c: nat :: c < MAX_COLUMNS ==> ColumnUsed(r, c) || c in added[..|added| - 1]
  {
    WantedBelow(r);
    ProjectFailsIff(WantedColumns(r));
    assert WantedColumns(r)[..|WantedColumns(r)| - 1] == BaseColumns(r) + added[..|added| - 1];
    BeforeLastCovers(r, added[..|added| - 1]);
  }

  /** Such a request: all of 1024 columns, and one equality that the server could have tested. */
  ghost function WideRequest(): Request {
    var column := Column(23, Capabilities(true, true, true, false));
    var filter := ConstraintInput(0, Eq, IntegerClass, 0, true, false, false);
    Request(0, seq(MAX_COLUMNS, _ => column), seq(64, _ => true), [filter], [], [], 0, 0, 0, 0)
  }

  lemma WideRequestRefused()
    ensures Compiled(WideRequest()) == Failure(LimitExceeded)
    ensures Compiled(WideRequest().(constraints := [])).Success?
  {
    var r := WideRequest();
    assert PushedColumns(r, 1) == PushedColumns(r, 0) + [0];
    LimitExceededIff(r);
    BaseFits(r.(constraints := []));
    WantedAre(r.(constraints := []));
    assert WantedColumns(r.(constraints := [])) == BaseColumns(r.(constraints := []));
  }
}
