/** What a successful compilation guarantees about argument numbers, the projection
    and the UNIQUE promise. */
module PlanBookkeeping {
  import opened Plans
  import opened Planner

  // ----- argument numbers

  /** The non-zero argument indexes, in constraint order. */
  function ArgumentIndexes(cs: seq<PlanConstraint>): seq<nat> {
    if cs == [] then []
    else
      var last := cs[|cs| - 1].argumentIndex;
      ArgumentIndexes(cs[..|cs| - 1]) + (if last != 0 then [last] else [])
  }

  function UpTo(n: nat): seq<nat> {
    seq(n, i => i + 1)
  }

  lemma ArgumentIndexesAppend(cs: seq<PlanConstraint>, c: PlanConstraint)
    ensures ArgumentIndexes(cs + [c]) ==
            ArgumentIndexes(cs) + (if c.argumentIndex != 0 then [c.argumentIndex] else [])
  {
    assert (cs + [c])[..|cs|] == cs;
  }

  lemma {:induction false} FilterArguments(r: Request, n: nat)
    requires n <= |r.constraints|
    ensures ArgumentIndexes(Filters(r, n)) == UpTo(Arguments(r, n))
  {
    if n > 0 {
      FilterArguments(r, n - 1);
      var c := r.constraints[n - 1];
      if Pushed(r, c) {
        var pushed := FilterConstraint(r, c, if TakesArgument(c) then Arguments(r, n) else 0);
        ArgumentIndexesAppend(Filters(r, n - 1), pushed);
        assert Filters(r, n) == Filters(r, n - 1) + [pushed];
        assert pushed.argumentIndex != 0 ==>
          UpTo(Arguments(r, n)) == UpTo(Arguments(r, n - 1)) + [pushed.argumentIndex];
      }
    }
  }

  lemma NextIndex(filters: seq<PlanConstraint>, before: seq<PlanConstraint>, w: PlanConstraint)
    requires w.argumentIndex > 0 && ArgumentIndexes(filters + before) == UpTo(w.argumentIndex - 1)
    ensures ArgumentIndexes(filters + (before + [w])) == UpTo(w.argumentIndex)
  {
    ArgumentIndexesAppend(filters + before, w);
    assert filters + (before + [w]) == filters + before + [w];
  }

  lemma {:induction false} WindowArguments(r: Request, n: nat)
    requires n <= |r.constraints|
    ensures ArgumentIndexes(Filters(r, |r.constraints|) + Windows(r, n)) ==
            UpTo(Arguments(r, |r.constraints|) + |Windows(r, n)|)
  {
    var filters := Filters(r, |r.constraints|);
    if n == 0 {
      FilterArguments(r, |r.constraints|);
      assert filters + Windows(r, 0) == filters;
    } else {
      WindowArguments(r, n - 1);
      var c, before := r.constraints[n - 1], Windows(r, n - 1);
      if WindowPushed(r, c) {
        NextIndex(filters, before, WindowConstraint(c, Arguments(r, |r.constraints|) + |before| + 1));
      }
    }
  }

  /** Across both constraint loops the arguments are numbered 1..argumentCount in order. */
  lemma ArgumentsAreNumberedInOrder(r: Request, plan: Plan)
    requires Compiled(r) == Success(plan)
    ensures ArgumentIndexes(plan.constraints) == UpTo(plan.argumentCount)
    ensures plan.argumentCount <= |plan.constraints| <= |r.constraints|
  {
    WindowArguments(r, |r.constraints|);
    ArgumentIndexesBounded(plan.constraints);
    FiltersAndWindowsDisjoint(r, |r.constraints|);
  }

  lemma {:induction false} ArgumentIndexesBounded(cs: seq<PlanConstraint>)
    ensures |ArgumentIndexes(cs)| <= |cs|
    ensures forall i :: 0 <= i < |cs| && cs[i].argumentIndex != 0 ==> cs[i].argumentIndex in ArgumentIndexes(cs)
  {
    if cs != [] { ArgumentIndexesBounded(cs[..|cs| - 1]); }
  }

  lemma {:induction false} FiltersAndWindowsDisjoint(r: Request, n: nat)
    requires n <= |r.constraints|
    ensures |Filters(r, n)| + |Windows(r, n)| <= n
  {
    if n > 0 { FiltersAndWindowsDisjoint(r, n - 1); }
  }

  // ----- projection

  lemma {:induction false} ProjectIsSet(columns: seq<nat>)
    requires Project(columns).Some?
    ensures var p := Project(columns).value;
      NoDuplicates(p) && |p| <= MAX_COLUMNS && forall c :: c in p <==> c in columns
  {
    if columns != [] {
      var n := |columns| - 1;
      ProjectIsSet(columns[..n]);
      assert columns == columns[..n] + [columns[n]];
    }
  }

  lemma {:induction false} ProjectSucceeds(columns: seq<nat>)
    requires |columns| <= MAX_COLUMNS
    ensures Project(columns).Some? && |Project(columns).value| <= |columns|
  {
    if columns != [] { ProjectSucceeds(columns[..|columns| - 1]); }
  }

  lemma {:induction false} UsedColumnsAre(r: Request, n: nat)
    ensures forall c :: c in UsedColumns(r, n) <==> 0 <= c < n && ColumnUsed(r, c)
  {
    if n > 0 { UsedColumnsAre(r, n - 1); }
  }

  lemma {:induction false} PushedColumnsAre(r: Request, n: nat)
    requires n <= |r.constraints|
    ensures forall i :: 0 <= i < n && Pushed(r, r.constraints[i]) ==> r.constraints[i].column in PushedColumns(r, n)
    ensures forall c :: c in PushedColumns(r, n) ==> c < |r.columns|
  {
    if n > 0 { PushedColumnsAre(r, n - 1); }
  }

  lemma {:induction false} FilterColumnsAre(r: Request, n: nat)
    requires n <= |r.constraints|
    ensures forall k :: 0 <= k < |Filters(r, n)| ==> Filters(r, n)[k].column in PushedColumns(r, n)
  {
    if n > 0 { FilterColumnsAre(r, n - 1); }
  }

  lemma {:induction false} WindowsHaveNoColumn(r: Request, n: nat)
    requires n <= |r.constraints|
    ensures forall k :: 0 <= k < |Windows(r, n)| ==> Windows(r, n)[k].column == -1
  {
    if n > 0 { WindowsHaveNoColumn(r, n - 1); }
  }

  /** The projection repeats no column, names only existing columns and holds every
      used, key, constraint and order column of the plan. */
  lemma ProjectionCoversThePlan(r: Request, plan: Plan)
    requires Compiled(r) == Success(plan)
    ensures NoDuplicates(plan.projection) && 0 < |plan.projection| <= MAX_COLUMNS
    ensures forall c :: c in plan.projection ==> 0 <= c < |r.columns|
    ensures forall c :: 0 <= c < |r.columns| && ColumnUsed(r, c) ==> c in plan.projection
    ensures forall k :: 0 <= k < |plan.constraints| && plan.constraints[k].column >= 0 ==>
              plan.constraints[k].column in plan.projection
    ensures forall k :: 0 <= k < |plan.orderTerms| ==> plan.orderTerms[k].column in plan.projection
  {
    var n := |r.constraints|;
    ProjectIsSet(WantedColumns(r));
    UsedColumnsAre(r, |r.columns|);
    PushedColumnsAre(r, n);
    FilterColumnsAre(r, n);
    WindowsHaveNoColumn(r, n);
    assert BaseColumns(r)[0] in WantedColumns(r);
    if OrderExact(r) {
      forall k | 0 <= k < |plan.orderTerms| ensures plan.orderTerms[k].column in WantedColumns(r) {
        assert OrderColumns(r, |r.orderTerms|)[k] == plan.orderTerms[k].column;
      }
      assert forall c :: c in OrderColumns(r, |r.orderTerms|) ==> c < |r.columns|;
    }
  }

  // ----- the UNIQUE promise

  ghost predicate AllKeysPinned(r: Request) {
    forall k :: k in r.keyColumns ==> exists i :: 0 <= i < |r.constraints| && Pins(r, i, k)
  }

  ghost predicate Pins(r: Request, i: nat, column: int)
    requires i < |r.constraints|
  {
    PinsKey(r, r.constraints[i]) && r.constraints[i].column == column
  }

  /** No key column is compared for equality twice. */
  ghost predicate NoDoubledKeyEquality(r: Request, n: nat)
    requires n <= |r.constraints|
  {
    forall i, j :: 0 <= i < j < n && PinsKey(r, r.constraints[i]) && PinsKey(r, r.constraints[j]) ==>
      r.constraints[i].column != r.constraints[j].column
  }

  ghost function PinnedColumns(r: Request, n: nat): set<int>
    requires n <= |r.constraints|
  {
    if n == 0 then {}
    else PinnedColumns(r, n - 1) + (if PinsKey(r, r.constraints[n - 1]) then {r.constraints[n - 1].column} else {})
  }

  lemma {:induction false} PinnedColumnsAre(r: Request, n: nat)
    requires n <= |r.constraints|
    ensures forall c :: c in PinnedColumns(r, n) <==> exists i :: 0 <= i < n && Pins(r, i, c)
  {
    if n > 0 {
      PinnedColumnsAre(r, n - 1);
      forall c | c in PinnedColumns(r, n) ensures exists i :: 0 <= i < n && Pins(r, i, c) {
        if c !in PinnedColumns(r, n - 1) { assert Pins(r, n - 1, c); }
      }
    }
  }

  lemma {:induction false} PinnedColumnsCounted(r: Request, n: nat)
    requires n <= |r.constraints|
    ensures |PinnedColumns(r, n)| <= KeyParts(r, n)
    ensures |PinnedColumns(r, n)| == KeyParts(r, n) <==> NoDoubledKeyEquality(r, n)
  {
    if n > 0 {
      PinnedColumnsCounted(r, n - 1);
      DoublingStep(r, n);
      var c := r.constraints[n - 1];
      if PinsKey(r, c) && c.column in PinnedColumns(r, n - 1) {
        assert PinnedColumns(r, n) == PinnedColumns(r, n - 1);
      }
    }
  }

  lemma DoublingStep(r: Request, n: nat)
    requires 0 < n <= |r.constraints|
    ensures NoDoubledKeyEquality(r, n) <==>
            NoDoubledKeyEquality(r, n - 1)
            && (PinsKey(r, r.constraints[n - 1]) ==> r.constraints[n - 1].column !in PinnedColumns(r, n - 1))
  {
    PinnedColumnsAre(r, n - 1);
    var c := r.constraints[n - 1];
    if PinsKey(r, c) {
      if c.column in PinnedColumns(r, n - 1) {
        var i :| 0 <= i < n - 1 && Pins(r, i, c.column);
      } else {
        forall i | 0 <= i < n - 1 && PinsKey(r, r.constraints[i]) ensures r.constraints[i].column != c.column {
          assert Pins(r, i, r.constraints[i].column);
        }
      }
    }
  }

  lemma {:induction false} DistinctColumnsCounted(s: seq<nat>)
    requires NoDuplicates(s)
    ensures |(set x: int | x in s)| == |s|
  {
    if s != [] {
      var n := |s| - 1;
      DistinctColumnsCounted(s[..n]);
      assert (set x: int | x in s) == (set x: int | x in s[..n]) + {s[n] as int};
    }
  }

  lemma SubsetOfEqualSize<T>(a: set<T>, b: set<T>)
    requires a <= b && |a| == |b|
    ensures a == b
  {
    if !(b <= a) {
      var x :| x in b && x !in a;
      SubsetSize(a, b - {x});
    }
  }

  lemma {:induction false} SubsetSize<T>(a: set<T>, b: set<T>)
    requires a <= b
    ensures |a| <= |b|
  {
    if a != {} {
      var x :| x in a;
      SubsetSize(a - {x}, b - {x});
    }
  }

  /** A plan promises one row by counting key equalities. Over distinct key columns
      the promise pins every key column exactly when no key column was counted twice. */
  lemma UniquePinsEveryKeyIffNoDoubling(r: Request, plan: Plan)
    requires Compiled(r) == Success(plan) && plan.flags.unique
    requires NoDuplicates(r.keyColumns)
    ensures AllKeysPinned(r) <==> NoDoubledKeyEquality(r, |r.constraints|)
  {
    var n := |r.constraints|;
    var pinned, keys := PinnedColumns(r, n), set x: int | x in r.keyColumns;
    PinnedColumnsAre(r, n);
    PinnedColumnsCounted(r, n);
    DistinctColumnsCounted(r.keyColumns);
    forall c | c in pinned ensures c in keys {
      var i :| 0 <= i < n && Pins(r, i, c);
    }
    if NoDoubledKeyEquality(r, n) {
      SubsetOfEqualSize(pinned, keys);
      forall k | k in r.keyColumns ensures exists i :: 0 <= i < n && Pins(r, i, k) {
        assert k as int in pinned;
      }
    }
    if AllKeysPinned(r) {
      assert keys <= pinned;
      assert pinned == keys;
    }
  }

  /** The failing family is not empty: two equalities on one of two key columns. */
  ghost function DoubledKeyRequest(): Request {
    var column := Column(23, Capabilities(true, true, true, false));
    var first := ConstraintInput(0, Eq, IntegerClass, 0, true, false, false);
    Request(0, [column, column], seq(64, _ => false), [first, first.(sourceIndex := 1)], [], [0, 1], 0, 0, 0, 0)
  }

  lemma DoubledKeyCompiles()
    ensures Compiled(DoubledKeyRequest()).Success?
  {
    var r := DoubledKeyRequest();
    assert |UsedColumns(r, 2)| <= |UsedColumns(r, 1)| + 1;
    assert |PushedColumns(r, 2)| <= |PushedColumns(r, 1)| + 1;
    ProjectSucceeds(WantedColumns(r));
  }

  lemma DoubledKeyUnique()
    ensures IsUnique(DoubledKeyRequest())
  {
    var r := DoubledKeyRequest();
    assert KeyParts(r, 2) == KeyParts(r, 1) + 1 == 2;
  }

  lemma UniqueCanMissAKey()
    ensures var r := DoubledKeyRequest();
      && NoDuplicates(r.keyColumns)
      && Compiled(r).Success? && Compiled(r).value.flags.unique
      && !AllKeysPinned(r)
  {
    var r := DoubledKeyRequest();
    DoubledKeyCompiles();
    DoubledKeyUnique();
    assert 1 in r.keyColumns;
    assert !Pins(r, 0, 1) && !Pins(r, 1, 1);
  }

  // ----- the row estimate

  /** How many parts the plan's constraints cut the table into. */
  function Divisor(r: Request, plan: Plan): (d: nat)
    ensures d > 0
  {
    1 + |plan.constraints| * 8 + if r.indexPrefix != 0 then 16 else 0
  }

  /** The whole part of a quotient, said without dividing. */
  predicate IsShare(rows: nat, base: nat, divisor: nat) {
    if base < divisor then rows == 1 else rows * divisor <= base < (rows + 1) * divisor
  }

  lemma ShareIs(base: nat, divisor: nat)
    requires divisor > 0
    ensures IsShare(Share(base, divisor), base, divisor)
  {
    if base >= divisor {
      var q := base / divisor;
      assert base == q * divisor + base % divisor;
      assert (q + 1) * divisor == q * divisor + divisor;
    }
  }

  /** One row for a whole key; otherwise the share of the table that is left, at least one row and
      never more than the table has. */
  lemma EstimateIs(r: Request, plan: Plan)
    requires Compiled(r) == Success(plan)
    ensures 1 <= plan.estimatedRows <= BaseRows(r)
    ensures plan.flags.unique ==> plan.estimatedRows == 1
    ensures !plan.flags.unique ==> IsShare(plan.estimatedRows, BaseRows(r), Divisor(r, plan))
  {
    ShareIs(BaseRows(r), Divisor(r, plan));
    if !plan.flags.unique { ShareWithin(plan.estimatedRows, BaseRows(r), Divisor(r, plan)); }
  }

  lemma ShareWithin(rows: nat, base: nat, divisor: nat)
    requires base > 0 && divisor > 0 && IsShare(rows, base, divisor)
    ensures rows <= base
  {
    if base >= divisor && rows > base { SmallerProduct(base + 1, rows, 1, divisor); }
  }

  lemma SmallerProduct(a: nat, b: nat, c: nat, d: nat)
    requires a <= b && c <= d
    ensures a * c <= b * d
  {
    assert b * d - a * c == (b - a) * d + a * (d - c);
    assert (b - a) * d >= 0 && a * (d - c) >= 0;
  }

  lemma ShareShrinks(base: nat, rows: nat, d: nat, rows': nat, d': nat)
    requires 0 < d <= d' && IsShare(rows, base, d) && IsShare(rows', base, d') && rows > 0
    ensures rows' <= rows
  {
    if base >= d' && rows' > rows { SmallerProduct(rows + 1, rows', d, d'); }
  }

  /** A plan with more constraints, on the same table, never promises more rows. */
  lemma MoreConstraintsFewerRows(r: Request, plan: Plan, r': Request, plan': Plan)
    requires Compiled(r) == Success(plan) && Compiled(r') == Success(plan') && !plan.flags.unique
    requires BaseRows(r) == BaseRows(r') && (r.indexPrefix != 0 ==> r'.indexPrefix != 0)
    requires |plan.constraints| <= |plan'.constraints|
    ensures plan'.estimatedRows <= plan.estimatedRows
  {
    EstimateIs(r, plan);
    EstimateIs(r', plan');
    if !plan'.flags.unique {
      ShareShrinks(BaseRows(r), plan.estimatedRows, Divisor(r, plan), plan'.estimatedRows, Divisor(r', plan'));
    }
  }
}
