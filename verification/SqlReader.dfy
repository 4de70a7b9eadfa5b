/** A reader for the statements a write may send, and what such a statement means: which rows
    its WHERE clause selects, in three-valued logic, and what it does to them. The reader
    starts from the text alone. */
module SqlReader {
  import opened Options
  import opened SqlText

  // ----- statements

  /** `column IS NOT DISTINCT FROM $number`, or `xmin=$number::pg_catalog.xid`. */
  datatype Test = SameAs(column: string, number: nat) | XminIs(number: nat)

  /** `column=$number`. */
  datatype Assignment = Assignment(column: string, number: nat)

  datatype Item = ColumnItem(column: string) | XminItem

  datatype Table = Table(schema: string, relation: string)

  datatype Sql =
    | InsertSql(table: Table, columns: seq<string>, values: seq<nat>, returned: seq<Item>)
    | UpdateSql(table: Table, sets: seq<Assignment>, tests: seq<Test>, returned: seq<Item>)
    | DeleteSql(table: Table, tests: seq<Test>, returned: seq<Item>)

  // ----- words

  type Tokens = seq<Token>

  predicate Starts(s: Tokens, word: string) { |word| <= |s| && s[..|word|] == Letters(word) }

  function After(s: Tokens, word: string): Tokens
    requires Starts(s, word)
  {
    s[|word|..]
  }

  lemma LettersAppend(a: string, b: string)
    ensures Letters(a + b) == Letters(a) + Letters(b)
  {
  }

  lemma StartsWith(word: string, rest: Tokens)
    ensures Starts(Letters(word) + rest, word) && After(Letters(word) + rest, word) == rest
  {
  }

  /** A word is not mistaken for one that differs from it. */
  lemma StartsNot(word: string, rest: Tokens, other: string, k: nat)
    requires k < |word| && k < |other| && word[k] != other[k]
    ensures !Starts(Letters(word) + rest, other)
  {
    var s := Letters(word) + rest;
    if |other| <= |s| { assert s[..|other|][k] == Letters(word)[k]; }
  }

  // ----- lists

  type Reader<!T> = Tokens -> Option<(T, Tokens)>

  /** One or more items with a word between them. */
  function ReadList<T>(one: Reader<T>, word: string, s: Tokens): Option<(seq<T>, Tokens)>
    requires word != ""
    decreases |s|
  {
    var r := one(s);
    if r.None? || |r.value.1| >= |s| then None
    else if !Starts(r.value.1, word) then Some(([r.value.0], r.value.1))
    else
      var more := ReadList(one, word, After(r.value.1, word));
      if more.None? then None else Some(([r.value.0] + more.value.0, more.value.1))
  }

  function Joined<T>(put: T -> Tokens, word: string, items: seq<T>): Tokens {
    if items == [] then []
    else if |items| == 1 then put(items[0])
    else put(items[0]) + (Letters(word) + Joined(put, word, items[1..]))
  }

  lemma {:induction false} JoinedNext<T>(put: T -> Tokens, word: string, items: seq<T>, x: T)
    ensures Joined(put, word, items + [x]) == Joined(put, word, items) + ((if items == [] then [] else Letters(word)) + put(x))
  {
    var all := items + [x];
    if |items| == 1 {
      assert all[1..] == [x];
    } else if items != [] {
      JoinedNext(put, word, items[1..], x);
      assert all[1..] == items[1..] + [x] && all[0] == items[0];
    }
  }

  /** The reader of one item gives back what was put, whatever follows. */
  ghost predicate Reads<T(!new)>(one: Reader<T>, put: T -> Tokens, x: T) {
    put(x) != [] && forall rest :: one(put(x) + rest) == Some((x, rest))
  }

  lemma ReadMore<T>(one: Reader<T>, word: string, s: Tokens, x: T, tail: Tokens, items: seq<T>, rest: Tokens)
    requires word != "" && one(s) == Some((x, Letters(word) + tail)) && |word| + |tail| < |s|
    requires ReadList(one, word, tail) == Some((items, rest))
    ensures ReadList(one, word, s) == Some(([x] + items, rest))
  {
    StartsWith(word, tail);
  }

  lemma {:induction false} ReadJoined<T(!new)>(one: Reader<T>, put: T -> Tokens, word: string, items: seq<T>, rest: Tokens)
    requires word != "" && items != [] && !Starts(rest, word)
    requires forall x :: x in items ==> Reads(one, put, x)
    ensures ReadList(one, word, Joined(put, word, items) + rest) == Some((items, rest))
  {
    var x, more := items[0], items[1..];
    assert Reads(one, put, x);
    if more == [] {
      assert items == [x];
    } else {
      ReadJoined(one, put, word, more, rest);
      var tail := Joined(put, word, more) + rest;
      Regroup(put(x), Letters(word), Joined(put, word, more), rest);
      ReadMore(one, word, put(x) + (Letters(word) + tail), x, tail, more, rest);
      assert items == [x] + more;
    }
  }

  // ----- the parts of a statement

  const RETURNING := " RETURNING "
  const WHERE := " WHERE "
  const AND := " AND "
  const DEFAULT_VALUES := " DEFAULT VALUES"
  const OPEN := " ("
  const VALUES := ") VALUES ("
  const CLOSE := ")"
  const INSERT_INTO := "INSERT INTO "
  const SET := " SET "
  const UPDATE := "UPDATE "
  const DELETE_FROM := "DELETE FROM "
  const COMMA := ","
  const DOT := "."
  const EQUALS := "="
  const SAME := " IS NOT DISTINCT FROM "
  const XMIN_IS := "xmin="
  const AS_XID := "::pg_catalog.xid"
  const XMIN_TEXT := "xmin::pg_catalog.text"

  function ReadNumber(word: string, s: Tokens): Option<(nat, Tokens)> {
    if Starts(s, word) && After(s, word) != [] && After(s, word)[0].Parameter? then
      Some((After(s, word)[0].number, After(s, word)[1..]))
    else None
  }

  function ReadColumn(s: Tokens): Option<(string, Tokens)> {
    if s != [] && s[0].Name? then Some((s[0].name, s[1..])) else None
  }

  function ReadValue(s: Tokens): Option<(nat, Tokens)> { ReadNumber("", s) }

  function ReadAssignment(s: Tokens): Option<(Assignment, Tokens)> {
    var c := ReadColumn(s);
    if c.None? then None
    else
      var n := ReadNumber(EQUALS, c.value.1);
      if n.None? then None else Some((Assignment(c.value.0, n.value.0), n.value.1))
  }

  function ReadTest(s: Tokens): Option<(Test, Tokens)> {
    var c := ReadColumn(s);
    if c.Some? then
      var n := ReadNumber(SAME, c.value.1);
      if n.None? then None else Some((SameAs(c.value.0, n.value.0), n.value.1))
    else
      var n := ReadNumber(XMIN_IS, s);
      if n.None? || !Starts(n.value.1, AS_XID) then None else Some((XminIs(n.value.0), After(n.value.1, AS_XID)))
  }

  function ReadItem(s: Tokens): Option<(Item, Tokens)> {
    var c := ReadColumn(s);
    if c.Some? then Some((ColumnItem(c.value.0), c.value.1))
    else if Starts(s, XMIN_TEXT) then Some((XminItem, After(s, XMIN_TEXT)))
    else None
  }

  function ReadTable(s: Tokens): Option<(Table, Tokens)> {
    var schema := ReadColumn(s);
    if schema.None? || !Starts(schema.value.1, DOT) then None
    else
      var relation := ReadColumn(After(schema.value.1, DOT));
      if relation.None? then None else Some((Table(schema.value.0, relation.value.0), relation.value.1))
  }

  /** ` RETURNING ` and the items, to the end. */
  function ReadReturned(s: Tokens): Option<seq<Item>> {
    if !Starts(s, RETURNING) then None
    else
      var items := ReadList(ReadItem, COMMA, After(s, RETURNING));
      if items.None? || items.value.1 != [] then None else Some(items.value.0)
  }

  /** ` WHERE `, the tests, and the rest. */
  function ReadWhere(s: Tokens): Option<(seq<Test>, seq<Item>)> {
    if !Starts(s, WHERE) then None
    else
      var tests := ReadList(ReadTest, AND, After(s, WHERE));
      if tests.None? then None
      else
        var returned := ReadReturned(tests.value.1);
        if returned.None? then None else Some((tests.value.0, returned.value))
  }

  /** ` (names) VALUES (numbers)`, or ` DEFAULT VALUES`. */
  function ReadValues(s: Tokens): Option<((seq<string>, seq<nat>), Tokens)> {
    if Starts(s, DEFAULT_VALUES) then Some((([], []), After(s, DEFAULT_VALUES)))
    else if !Starts(s, OPEN) then None
    else
      var columns := ReadList(ReadColumn, COMMA, After(s, OPEN));
      if columns.None? || !Starts(columns.value.1, VALUES) then None
      else
        var values := ReadList(ReadValue, COMMA, After(columns.value.1, VALUES));
        if values.None? || !Starts(values.value.1, CLOSE) then None
        else Some(((columns.value.0, values.value.0), After(values.value.1, CLOSE)))
  }

  function ReadInsert(s: Tokens): Option<Sql> {
    var table := ReadTable(s);
    if table.None? then None
    else
      var values := ReadValues(table.value.1);
      if values.None? then None
      else
        var returned := ReadReturned(values.value.1);
        if returned.None? then None
        else Some(InsertSql(table.value.0, values.value.0.0, values.value.0.1, returned.value))
  }

  function ReadUpdate(s: Tokens): Option<Sql> {
    var table := ReadTable(s);
    if table.None? || !Starts(table.value.1, SET) then None
    else
      var sets := ReadList(ReadAssignment, COMMA, After(table.value.1, SET));
      if sets.None? then None
      else
        var where_ := ReadWhere(sets.value.1);
        if where_.None? then None else Some(UpdateSql(table.value.0, sets.value.0, where_.value.0, where_.value.1))
  }

  function ReadDelete(s: Tokens): Option<Sql> {
    var table := ReadTable(s);
    if table.None? then None
    else
      var where_ := ReadWhere(table.value.1);
      if where_.None? then None else Some(DeleteSql(table.value.0, where_.value.0, where_.value.1))
  }

  function ReadTokens(s: Tokens): Option<Sql> {
    if Starts(s, INSERT_INTO) then ReadInsert(After(s, INSERT_INTO))
    else if Starts(s, UPDATE) then ReadUpdate(After(s, UPDATE))
    else if Starts(s, DELETE_FROM) then ReadDelete(After(s, DELETE_FROM))
    else None
  }

  /** The statement a text is. */
  function ReadSql(query: string): Option<Sql> {
    var tokens := Scan(query);
    if tokens.None? then None else ReadTokens(tokens.value)
  }

  // ----- what a statement means

  /** SQL values: NULL is not a value like the others. */
  datatype Value<V> = Null | Known(value: V)

  datatype Row<V> = Row(at: string -> Value<V>, xmin: V)

  datatype Truth = True | False | Unknown

  function Conj(a: Truth, b: Truth): Truth {
    if a.False? || b.False? then False else if a.Unknown? || b.Unknown? then Unknown else True
  }

  /** `=`: unknown beside NULL. */
  function Equals<V(==)>(a: Value<V>, b: Value<V>): Truth {
    if a.Null? || b.Null? then Unknown else if a.value == b.value then True else False
  }

  /** `IS NOT DISTINCT FROM`: never unknown, NULL beside NULL is true. */
  function NotDistinct<V(==)>(a: Value<V>, b: Value<V>): Truth {
    if a.Null? && b.Null? then True else if a.Null? || b.Null? then False else Equals(a, b)
  }

  function Argument<V>(args: seq<Value<V>>, number: nat): Value<V> {
    if 0 < number <= |args| then args[number - 1] else Null
  }

  function TestOf<V(==)>(test: Test, args: seq<Value<V>>, row: Row<V>): Truth {
    match test
    case SameAs(column, number) => NotDistinct(row.at(column), Argument(args, number))
    case XminIs(number) => Equals(Known(row.xmin), Argument(args, number))
  }

  function Where<V(==)>(tests: seq<Test>, args: seq<Value<V>>, row: Row<V>): Truth {
    if tests == [] then True else Conj(TestOf(tests[0], args, row), Where(tests[1..], args, row))
  }

  /** The rows an UPDATE or DELETE touches. */
  predicate Selected<V(==)>(query: string, args: seq<Value<V>>, row: Row<V>) {
    var sql := ReadSql(query);
    sql.Some? && !sql.value.InsertSql? && Where(sql.value.tests, args, row).True?
  }

  /** How many rows of a table it touches. */
  function Affected<V(==)>(query: string, args: seq<Value<V>>, table: seq<Row<V>>): nat {
    if table == [] then 0
    else (if Selected(query, args, table[0]) then 1 else 0) + Affected(query, args, table[1..])
  }

  /** What a column holds after the assignments. */
  function Assigned<V>(sets: seq<Assignment>, args: seq<Value<V>>, column: string, old_: Value<V>): Value<V> {
    if sets == [] then old_
    else if sets[|sets| - 1].column == column then Argument(args, sets[|sets| - 1].number)
    else Assigned(sets[..|sets| - 1], args, column, old_)
  }

  /** What a column of a row holds after a statement that does not delete the row. */
  function ValueAfter<V(==)>(query: string, args: seq<Value<V>>, row: Row<V>, column: string): Value<V> {
    var sql := ReadSql(query);
    if Selected(query, args, row) && sql.value.UpdateSql?
      then Assigned(sql.value.sets, args, column, row.at(column))
      else row.at(column)
  }

  lemma {:induction false} WhereIff<V>(tests: seq<Test>, args: seq<Value<V>>, row: Row<V>)
    ensures Where(tests, args, row).True? <==> forall i :: 0 <= i < |tests| ==> TestOf(tests[i], args, row).True?
  {
    if tests != [] {
      WhereIff(tests[1..], args, row);
      assert tests == [tests[0]] + tests[1..];
    }
  }

  /** Placeholders in reading order. */
  function Parameters(sql: Sql): seq<nat> {
    match sql
    case InsertSql(_, _, values, _) => values
    case UpdateSql(_, sets, tests, _) => SetNumbers(sets) + TestNumbers(tests)
    case DeleteSql(_, tests, _) => TestNumbers(tests)
  }

  function SetNumbers(sets: seq<Assignment>): (r: seq<nat>)
    ensures |r| == |sets| && forall i :: 0 <= i < |sets| ==> r[i] == sets[i].number
  {
    seq(|sets|, i requires 0 <= i < |sets| => sets[i].number)
  }

  function TestNumbers(tests: seq<Test>): (r: seq<nat>)
    ensures |r| == |tests| && forall i :: 0 <= i < |tests| ==> r[i] == tests[i].number
  {
    seq(|tests|, i requires 0 <= i < |tests| => tests[i].number)
  }

  // ----- putting the parts of a statement

  function PutColumn(column: string): Tokens { [Name(column)] }
  function PutValue(number: nat): Tokens { [Parameter(number)] }
  function PutAssignment(a: Assignment): Tokens { [Name(a.column)] + (Letters(EQUALS) + [Parameter(a.number)]) }

  function PutTest(t: Test): Tokens {
    match t
    case SameAs(column, number) => [Name(column)] + (Letters(SAME) + [Parameter(number)])
    case XminIs(number) => Letters(XMIN_IS) + ([Parameter(number)] + Letters(AS_XID))
  }

  function PutItem(i: Item): Tokens {
    match i
    case ColumnItem(column) => [Name(column)]
    case XminItem => Letters(XMIN_TEXT)
  }

  lemma ReadPutNumber(word: string, number: nat, rest: Tokens)
    ensures ReadNumber(word, Letters(word) + ([Parameter(number)] + rest)) == Some((number, rest))
  {
    StartsWith(word, [Parameter(number)] + rest);
    assert ([Parameter(number)] + rest)[1..] == rest;
  }

  lemma ReadPutColumn(column: string, rest: Tokens)
    ensures ReadColumn([Name(column)] + rest) == Some((column, rest))
  {
    assert ([Name(column)] + rest)[1..] == rest;
  }

  lemma ColumnReads(column: string)
    ensures Reads(ReadColumn, PutColumn, column)
  {
    forall rest ensures ReadColumn(PutColumn(column) + rest) == Some((column, rest)) { ReadPutColumn(column, rest); }
  }

  lemma ValueReads(number: nat)
    ensures Reads(ReadValue, PutValue, number)
  {
    forall rest ensures ReadValue(PutValue(number) + rest) == Some((number, rest)) {
      ReadPutNumber("", number, rest);
      assert Letters("") + ([Parameter(number)] + rest) == PutValue(number) + rest;
    }
  }

  /** A name, a word and a number, as one regroups them. */
  lemma Regroup(a: Tokens, b: Tokens, c: Tokens, rest: Tokens)
    ensures a + (b + c) + rest == a + (b + (c + rest))
  {
  }

  lemma AssignmentReads(a: Assignment)
    ensures Reads(ReadAssignment, PutAssignment, a)
  {
    forall rest ensures ReadAssignment(PutAssignment(a) + rest) == Some((a, rest)) {
      var tail := Letters(EQUALS) + ([Parameter(a.number)] + rest);
      Regroup([Name(a.column)], Letters(EQUALS), [Parameter(a.number)], rest);
      ReadPutColumn(a.column, tail);
      ReadPutNumber(EQUALS, a.number, rest);
    }
  }

  lemma SameReads(t: Test, rest: Tokens)
    requires t.SameAs?
    ensures ReadTest(PutTest(t) + rest) == Some((t, rest))
  {
    var tail := Letters(SAME) + ([Parameter(t.number)] + rest);
    Regroup([Name(t.column)], Letters(SAME), [Parameter(t.number)], rest);
    ReadPutColumn(t.column, tail);
    ReadPutNumber(SAME, t.number, rest);
  }

  /** What starts with a letter is no name. */
  lemma NoColumn(word: string, rest: Tokens)
    requires word != ""
    ensures ReadColumn(Letters(word) + rest).None?
  {
    assert (Letters(word) + rest)[0] == Letters(word)[0];
  }

  lemma XminReads(t: Test, rest: Tokens)
    requires t.XminIs?
    ensures ReadTest(PutTest(t) + rest) == Some((t, rest))
  {
    var tail := Letters(AS_XID) + rest;
    Regroup(Letters(XMIN_IS), [Parameter(t.number)], Letters(AS_XID), rest);
    NoColumn(XMIN_IS, [Parameter(t.number)] + tail);
    ReadPutNumber(XMIN_IS, t.number, tail);
    StartsWith(AS_XID, rest);
  }

  lemma TestReads(t: Test)
    ensures Reads(ReadTest, PutTest, t)
  {
    forall rest ensures ReadTest(PutTest(t) + rest) == Some((t, rest)) {
      if t.SameAs? { SameReads(t, rest); } else { XminReads(t, rest); }
    }
  }

  lemma ItemReads(i: Item)
    ensures Reads(ReadItem, PutItem, i)
  {
    forall rest ensures ReadItem(PutItem(i) + rest) == Some((i, rest)) {
      if i.ColumnItem? {
        ReadPutColumn(i.column, rest);
      } else {
        NoColumn(XMIN_TEXT, rest);
        StartsWith(XMIN_TEXT, rest);
      }
    }
  }

  // ----- whole statements

  function PutTable(t: Table): Tokens { [Name(t.schema)] + (Letters(DOT) + [Name(t.relation)]) }

  function PutReturned(items: seq<Item>): Tokens { Letters(RETURNING) + Joined(PutItem, COMMA, items) }

  function PutWhere(tests: seq<Test>, items: seq<Item>): Tokens {
    Letters(WHERE) + (Joined(PutTest, AND, tests) + PutReturned(items))
  }

  function PutValues(columns: seq<string>, values: seq<nat>): Tokens {
    if columns == [] then Letters(DEFAULT_VALUES)
    else
      Letters(OPEN) + (Joined(PutColumn, COMMA, columns) + (Letters(VALUES) + (Joined(PutValue, COMMA, values) + Letters(CLOSE))))
  }

  function PutSql(sql: Sql): Tokens {
    match sql
    case InsertSql(table, columns, values, returned) =>
      Letters(INSERT_INTO) + (PutTable(table) + (PutValues(columns, values) + PutReturned(returned)))
    case UpdateSql(table, sets, tests, returned) =>
      Letters(UPDATE) + (PutTable(table) + (Letters(SET) + (Joined(PutAssignment, COMMA, sets) + PutWhere(tests, returned))))
    case DeleteSql(table, tests, returned) =>
      Letters(DELETE_FROM) + (PutTable(table) + PutWhere(tests, returned))
  }

  /** The grammar has no empty lists; an INSERT without columns says so. */
  predicate WellFormed(sql: Sql) {
    && sql.returned != []
    && (sql.InsertSql? ==> (sql.columns == [] <==> sql.values == []))
    && (sql.UpdateSql? ==> sql.sets != [])
    && (!sql.InsertSql? ==> sql.tests != [])
  }

  lemma ReturnedReads(items: seq<Item>)
    requires items != []
    ensures ReadReturned(PutReturned(items)) == Some(items)
  {
    StartsWith(RETURNING, Joined(PutItem, COMMA, items));
    forall i | i in items ensures Reads(ReadItem, PutItem, i) { ItemReads(i); }
    ReadJoined(ReadItem, PutItem, COMMA, items, []);
    assert Joined(PutItem, COMMA, items) + [] == Joined(PutItem, COMMA, items);
  }

  lemma WhereReads(tests: seq<Test>, items: seq<Item>)
    requires tests != [] && items != []
    ensures ReadWhere(PutWhere(tests, items)) == Some((tests, items))
  {
    StartsWith(WHERE, Joined(PutTest, AND, tests) + PutReturned(items));
    forall t | t in tests ensures Reads(ReadTest, PutTest, t) { TestReads(t); }
    StartsNot(RETURNING, Joined(PutItem, COMMA, items), AND, 1);
    ReadJoined(ReadTest, PutTest, AND, tests, PutReturned(items));
    ReturnedReads(items);
  }

  lemma TableReads(t: Table, rest: Tokens)
    ensures ReadTable(PutTable(t) + rest) == Some((t, rest))
  {
    Regroup([Name(t.schema)], Letters(DOT), [Name(t.relation)], rest);
    ReadPutColumn(t.schema, Letters(DOT) + ([Name(t.relation)] + rest));
    StartsWith(DOT, [Name(t.relation)] + rest);
    ReadPutColumn(t.relation, rest);
  }

  lemma DefaultReads(rest: Tokens)
    ensures ReadValues(PutValues([], []) + rest) == Some((([], []), rest))
  {
    StartsWith(DEFAULT_VALUES, rest);
  }

  lemma ColumnsRead(columns: seq<string>, rest: Tokens)
    requires columns != []
    ensures ReadList(ReadColumn, COMMA, Joined(PutColumn, COMMA, columns) + (Letters(VALUES) + rest))
            == Some((columns, Letters(VALUES) + rest))
  {
    forall c | c in columns ensures Reads(ReadColumn, PutColumn, c) { ColumnReads(c); }
    StartsNot(VALUES, rest, COMMA, 0);
    ReadJoined(ReadColumn, PutColumn, COMMA, columns, Letters(VALUES) + rest);
  }

  lemma NumbersRead(values: seq<nat>, rest: Tokens)
    requires values != []
    ensures ReadList(ReadValue, COMMA, Joined(PutValue, COMMA, values) + (Letters(CLOSE) + rest)) == Some((values, Letters(CLOSE) + rest))
  {
    forall v | v in values ensures Reads(ReadValue, PutValue, v) { ValueReads(v); }
    StartsNot(CLOSE, rest, COMMA, 0);
    ReadJoined(ReadValue, PutValue, COMMA, values, Letters(CLOSE) + rest);
  }

  lemma ValuesRead(columns: seq<string>, values: seq<nat>, rest: Tokens)
    requires columns != [] && values != []
    ensures ReadValues(PutValues(columns, values) + rest) == Some(((columns, values), rest))
  {
    var inner := Joined(PutValue, COMMA, values) + (Letters(CLOSE) + rest);
    var outer := Joined(PutColumn, COMMA, columns) + (Letters(VALUES) + inner);
    ValuesGroup(Joined(PutColumn, COMMA, columns), Joined(PutValue, COMMA, values), rest);
    StartsNot(OPEN, outer, DEFAULT_VALUES, 1);
    StartsWith(OPEN, outer);
    ColumnsRead(columns, inner);
    StartsWith(VALUES, inner);
    NumbersRead(values, rest);
    StartsWith(CLOSE, rest);
  }

  lemma ValuesGroup(columns: Tokens, values: Tokens, rest: Tokens)
    ensures Letters(OPEN) + (columns + (Letters(VALUES) + (values + Letters(CLOSE)))) + rest
            == Letters(OPEN) + (columns + (Letters(VALUES) + (values + (Letters(CLOSE) + rest))))
  {
    GroupFive(Letters(OPEN), columns, Letters(VALUES), values, Letters(CLOSE), rest);
  }

  lemma GroupFive(a: Tokens, b: Tokens, c: Tokens, d: Tokens, e: Tokens, rest: Tokens)
    ensures a + (b + (c + (d + e))) + rest == a + (b + (c + (d + (e + rest))))
  {
    Regroup(a, b, c + (d + e), rest);
    Regroup(c, d, e, rest);
  }

  lemma InsertReads(sql: Sql)
    requires sql.InsertSql? && WellFormed(sql)
    ensures ReadTokens(PutSql(sql)) == Some(sql)
  {
    var tail := PutValues(sql.columns, sql.values) + PutReturned(sql.returned);
    StartsWith(INSERT_INTO, PutTable(sql.table) + tail);
    TableReads(sql.table, tail);
    if sql.columns == [] { DefaultReads(PutReturned(sql.returned)); } else { ValuesRead(sql.columns, sql.values, PutReturned(sql.returned)); }
    ReturnedReads(sql.returned);
  }

  lemma AssignmentsRead(sets: seq<Assignment>, tests: seq<Test>, items: seq<Item>)
    requires sets != []
    ensures ReadList(ReadAssignment, COMMA, Joined(PutAssignment, COMMA, sets) + PutWhere(tests, items)) == Some((sets, PutWhere(tests, items)))
  {
    forall a | a in sets ensures Reads(ReadAssignment, PutAssignment, a) { AssignmentReads(a); }
    StartsNot(WHERE, Joined(PutTest, AND, tests) + PutReturned(items), COMMA, 0);
    ReadJoined(ReadAssignment, PutAssignment, COMMA, sets, PutWhere(tests, items));
  }

  lemma UpdateReads(sql: Sql)
    requires sql.UpdateSql? && WellFormed(sql)
    ensures ReadTokens(PutSql(sql)) == Some(sql)
  {
    var sets := Joined(PutAssignment, COMMA, sql.sets) + PutWhere(sql.tests, sql.returned);
    var tail := Letters(SET) + sets;
    StartsWith(UPDATE, PutTable(sql.table) + tail);
    StartsNot(UPDATE, PutTable(sql.table) + tail, INSERT_INTO, 0);
    TableReads(sql.table, tail);
    StartsWith(SET, sets);
    AssignmentsRead(sql.sets, sql.tests, sql.returned);
    WhereReads(sql.tests, sql.returned);
  }

  lemma DeleteReads(sql: Sql)
    requires sql.DeleteSql? && WellFormed(sql)
    ensures ReadTokens(PutSql(sql)) == Some(sql)
  {
    var tail := PutWhere(sql.tests, sql.returned);
    StartsWith(DELETE_FROM, PutTable(sql.table) + tail);
    StartsNot(DELETE_FROM, PutTable(sql.table) + tail, INSERT_INTO, 0);
    StartsNot(DELETE_FROM, PutTable(sql.table) + tail, UPDATE, 0);
    TableReads(sql.table, tail);
    WhereReads(sql.tests, sql.returned);
  }

  /** The reader understands every statement of the grammar. */
  lemma SqlReads(sql: Sql)
    requires WellFormed(sql)
    ensures ReadTokens(PutSql(sql)) == Some(sql)
  {
    match sql
    case InsertSql(_, _, _, _) => InsertReads(sql);
    case UpdateSql(_, _, _, _) => UpdateReads(sql);
    case DeleteSql(_, _, _) => DeleteReads(sql);
  }
}
