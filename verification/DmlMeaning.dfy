/** What a built statement says, found by reading its text back. */
module DmlMeaning {
  import opened Options
  import opened Concatenation
  import opened SqlText
  import opened SqlReader
  import opened DmlSpec

  // ----- the text can be read

  /** Plain text that never begins with a digit. */
  predicate Tame(text: string) {
    text != "" && PlainText(text) && !StartsWithDigit(text)
  }

  predicate TokenOk(t: Token) { t.Text? ==> Tame(t.text) }

  /** Tokens that can be read back: no name directly follows a name. */
  predicate Sound(t: seq<Token>) {
    t == [] || (TokenOk(t[0]) && (t[0].Name? ==> OpensPlain(t[1..])) && Sound(t[1..]))
  }

  predicate OpensPlain(t: seq<Token>) { t == [] || !t[0].Name? }
  predicate EndsPlain(t: seq<Token>) { t == [] || !t[|t| - 1].Name? }

  lemma {:induction false} SoundAppend(a: seq<Token>, b: seq<Token>)
    requires Sound(a) && Sound(b) && (EndsPlain(a) || OpensPlain(b))
    ensures Sound(a + b)
    ensures EndsPlain(b) && b != [] ==> EndsPlain(a + b)
    ensures OpensPlain(a) && a != [] ==> OpensPlain(a + b)
  {
    if a == [] {
      assert a + b == b;
    } else {
      SoundAppend(a[1..], b);
      SoundCons(a[0], a[1..], b);
      assert a == [a[0]] + a[1..];
    }
    if b != [] { assert (a + b)[|a + b| - 1] == b[|b| - 1]; }
  }

  lemma SoundCons(t: Token, more: seq<Token>, b: seq<Token>)
    requires Sound([t] + more) && Sound(more + b) && (more == [] ==> !t.Name? || OpensPlain(b))
    ensures Sound([t] + more + b)
  {
    var all := [t] + more + b;
    assert all[1..] == more + b && ([t] + more)[1..] == more;
  }

  lemma {:induction false} SoundIsPlain(t: seq<Token>)
    requires Sound(t)
    ensures Plain(t)
  {
    if t != [] {
      var more := t[1..];
      SoundIsPlain(more);
      forall i | 0 <= i < |t| && t[i].Text? ensures t[i].text != "" && PlainText(t[i].text) {
        if i > 0 { assert t[i] == more[i - 1]; }
      }
      forall i | 0 <= i < |t| - 1 ensures Apart(t[i], t[i + 1]) {
        if i > 0 { assert t[i] == more[i - 1] && t[i + 1] == more[i]; } else { assert t[1] == more[0] && Sound(more); }
      }
    }
  }

  lemma SoundOne(t: Token)
    requires TokenOk(t)
    ensures Sound([t]) && (t.Name? || (OpensPlain([t]) && EndsPlain([t])))
  {
  }

  lemma Words()
    ensures Tame(".") && Tame(",") && Tame("=") && Tame(" AND ") && Tame(" (") && Tame(")")
    ensures Tame(" SET ") && Tame(" WHERE ") && Tame("UPDATE ")
  {
  }

  lemma LongWords()
    ensures Tame(" IS NOT DISTINCT FROM ")
    ensures Tame(") VALUES (") && Tame(" RETURNING ")
  {
  }

  lemma Verbs()
    ensures Tame("INSERT INTO ") && Tame("DELETE FROM ")
    ensures Tame(" DEFAULT VALUES")
  {
  }

  lemma XminWords()
    ensures Tame(" AND xmin=") && Tame("::pg_catalog.xid")
    ensures Tame(",xmin::pg_catalog.text")
  {
  }

  lemma SoundComma(first: bool, t: seq<Token>)
    requires Sound(t)
    ensures Sound(Comma(first) + t) && (EndsPlain(t) ==> EndsPlain(Comma(first) + t))
    ensures first || OpensPlain(Comma(first) + t)
  {
    Words();
    if first { assert Comma(first) + t == t; } else {
      SoundOne(Text(","));
      SoundAppend([Text(",")], t);
    }
  }

  lemma SoundSame(name: Token, number: nat)
    requires name.Name?
    ensures Sound(Same(name, number)) && EndsPlain(Same(name, number))
  {
    LongWords();
    SoundOne(name);
    SoundOne(Text(" IS NOT DISTINCT FROM "));
    SoundOne(Parameter(number));
    SoundAppend([name], [Text(" IS NOT DISTINCT FROM ")]);
    SoundAppend([name] + [Text(" IS NOT DISTINCT FROM ")], [Parameter(number)]);
  }

  lemma SoundAnd(first: bool, t: seq<Token>)
    requires Sound(t) && t != [] && EndsPlain(t)
    ensures Sound(And(first) + t) && EndsPlain(And(first) + t) && (first || OpensPlain(And(first) + t))
  {
    Words();
    if first { assert And(first) + t == t; } else {
      SoundOne(Text(" AND "));
      SoundAppend([Text(" AND ")], t);
    }
  }

  lemma SoundTarget(p: Policy, rest: seq<Token>)
    requires Sound(rest) && rest != [] && OpensPlain(rest) && EndsPlain(rest)
    ensures Sound(Target(p) + rest) && EndsPlain(Target(p) + rest)
  {
    Words();
    SoundOne(Name(p.schema));
    SoundOne(Text("."));
    SoundOne(Name(p.relation));
    SoundAppend([Name(p.schema)], [Text(".")]);
    SoundAppend([Name(p.schema)] + [Text(".")], [Name(p.relation)]);
    assert Target(p) == [Name(p.schema)] + [Text(".")] + [Name(p.relation)];
    SoundAppend(Target(p), rest);
  }

  lemma {:induction false} SoundNames(p: Policy, cols: seq<nat>)
    requires Columns(p, cols)
    ensures Sound(NameList(p, cols))
  {
    if cols != [] {
      var n := |cols| - 1;
      SoundNames(p, cols[..n]);
      SoundOne(NameAt(p, cols[n]));
      SoundComma(n == 0, [NameAt(p, cols[n])]);
      SoundAppend(NameList(p, cols[..n]), Comma(n == 0) + [NameAt(p, cols[n])]);
    }
  }

  lemma {:induction false} SoundValues(n: nat)
    ensures Sound(ValueList(n)) && OpensPlain(ValueList(n)) && EndsPlain(ValueList(n))
  {
    if n > 0 {
      SoundValues(n - 1);
      SoundOne(Parameter(n));
      SoundComma(n == 1, [Parameter(n)]);
      SoundAppend(ValueList(n - 1), Comma(n == 1) + [Parameter(n)]);
    }
  }

  lemma SoundAssignment(name: Token, number: nat)
    requires name.Name?
    ensures Sound([name, Text("="), Parameter(number)]) && EndsPlain([name, Text("="), Parameter(number)])
  {
    Words();
    SoundOne(name);
    SoundOne(Text("="));
    SoundOne(Parameter(number));
    SoundAppend([Text("=")], [Parameter(number)]);
    SoundAppend([name], [Text("=")] + [Parameter(number)]);
    assert [name, Text("="), Parameter(number)] == [name] + ([Text("=")] + [Parameter(number)]);
  }

  lemma {:induction false} SoundSets(p: Policy, cols: seq<nat>)
    requires Columns(p, cols)
    ensures Sound(SetList(p, cols)) && EndsPlain(SetList(p, cols))
  {
    if cols != [] {
      var n := |cols| - 1;
      var assignment := [NameAt(p, cols[n]), Text("="), Parameter(n + 1)];
      SoundSets(p, cols[..n]);
      SoundAssignment(NameAt(p, cols[n]), n + 1);
      SoundComma(n == 0, assignment);
      SoundAppend(SetList(p, cols[..n]), Comma(n == 0) + assignment);
    }
  }

  lemma {:induction false} SoundTests(p: Policy, n: nat, base: nat)
    requires PolicyOk(p) && n <= |p.keys|
    ensures Sound(KeyTests(p, n, base)) && EndsPlain(KeyTests(p, n, base))
  {
    if n > 0 {
      SoundTests(p, n - 1, base);
      SoundSame(NameAt(p, p.keys[n - 1]), base + n);
      SoundAnd(n == 1, Same(NameAt(p, p.keys[n - 1]), base + n));
      SoundAppend(KeyTests(p, n - 1, base), And(n == 1) + Same(NameAt(p, p.keys[n - 1]), base + n));
    }
  }

  lemma SoundXmin(number: nat)
    ensures var t := [Text(" AND xmin=")] + [Parameter(number)] + [Text("::pg_catalog.xid")];
            Sound(t) && OpensPlain(t) && EndsPlain(t)
  {
    XminWords();
    SoundOne(Text(" AND xmin="));
    SoundOne(Parameter(number));
    SoundOne(Text("::pg_catalog.xid"));
    SoundAppend([Text(" AND xmin=")], [Parameter(number)]);
    SoundAppend([Text(" AND xmin=")] + [Parameter(number)], [Text("::pg_catalog.xid")]);
  }

  lemma SoundVersionTest(p: Policy, number: nat)
    requires PolicyOk(p)
    ensures Sound(VersionTest(p, number)) && OpensPlain(VersionTest(p, number)) && EndsPlain(VersionTest(p, number))
  {
    if p.mode.Xmin? { SoundXmin(number); }
    if p.mode.Version? {
      SoundSame(NameAt(p, p.mode.column), number);
      SoundAnd(false, Same(NameAt(p, p.mode.column), number));
    }
  }

  lemma SoundVersionReturn(p: Policy)
    requires PolicyOk(p)
    ensures Sound(VersionReturn(p)) && OpensPlain(VersionReturn(p))
  {
    if p.mode.Xmin? {
      XminWords();
      SoundOne(Text(",xmin::pg_catalog.text"));
    }
    if p.mode.Version? {
      SoundOne(NameAt(p, p.mode.column));
      SoundComma(false, [NameAt(p, p.mode.column)]);
      assert VersionReturn(p) == Comma(false) + [NameAt(p, p.mode.column)];
    }
  }

  /** A word in front of a piece. */
  lemma SoundAfter(word: string, rest: seq<Token>)
    requires Tame(word) && Sound(rest)
    ensures Sound([Text(word)] + rest) && OpensPlain([Text(word)] + rest)
    ensures EndsPlain(rest) ==> EndsPlain([Text(word)] + rest)
  {
    SoundOne(Text(word));
    SoundAppend([Text(word)], rest);
  }

  lemma SoundReturning(p: Policy)
    requires PolicyOk(p)
    ensures Sound(Returning(p)) && OpensPlain(Returning(p)) && Returning(p) != []
  {
    SoundNames(p, p.keys);
    SoundVersionReturn(p);
    SoundAppend(NameList(p, p.keys), VersionReturn(p));
    LongWords();
    SoundAfter(" RETURNING ", NameList(p, p.keys) + VersionReturn(p));
  }

  lemma {:induction false} SoundPicked(p: Policy, op: Operation, base: nat)
    requires PolicyOk(p)
    ensures Sound(Picked(p, op, base)) && EndsPlain(Picked(p, op, base))
  {
    if !op.Insert? { SoundConditions(p, |p.keys|, base, base + |p.keys| + 1); }
  }

  lemma {:induction false} SoundConditions(p: Policy, n: nat, base: nat, number: nat)
    requires PolicyOk(p) && n <= |p.keys|
    ensures Sound(KeyTests(p, n, base) + VersionTest(p, number)) && EndsPlain(KeyTests(p, n, base) + VersionTest(p, number))
  {
    SoundTests(p, n, base);
    SoundVersionTest(p, number);
    SoundBoth(KeyTests(p, n, base), VersionTest(p, number));
  }

  lemma SoundBoth(a: seq<Token>, b: seq<Token>)
    requires Sound(a) && EndsPlain(a) && Sound(b) && EndsPlain(b)
    ensures Sound(a + b) && EndsPlain(a + b)
  {
    SoundAppend(a, b);
    if b == [] { assert a + b == a; }
  }

  lemma SoundLists(names: seq<Token>, values: seq<Token>)
    requires Sound(names) && Sound(values) && OpensPlain(values) && EndsPlain(values)
    ensures var t := [Text(" (")] + (names + ([Text(") VALUES (")] + (values + [Text(")")])));
            Sound(t) && OpensPlain(t) && EndsPlain(t)
  {
    Words();
    LongWords();
    SoundOne(Text(")"));
    SoundAppend(values, [Text(")")]);
    SoundAfter(") VALUES (", values + [Text(")")]);
    SoundAppend(names, [Text(") VALUES (")] + (values + [Text(")")]));
    SoundAfter(" (", names + ([Text(") VALUES (")] + (values + [Text(")")])));
  }

  lemma SoundInsert(p: Policy, cols: seq<nat>)
    requires Columns(p, cols) && cols != []
    ensures Sound(Written(p, Insert, cols)) && EndsPlain(Written(p, Insert, cols))
  {
    var names, values := NameList(p, cols), ValueList(|cols|);
    SoundNames(p, cols);
    SoundValues(|cols|);
    SoundLists(names, values);
    var lists := [Text(" (")] + (names + ([Text(") VALUES (")] + (values + [Text(")")])));
    SoundTarget(p, lists);
    Verbs();
    SoundAfter("INSERT INTO ", Target(p) + lists);
  }

  lemma SoundUpdate(p: Policy, cols: seq<nat>)
    requires Columns(p, cols)
    ensures Sound(Written(p, Update, cols)) && EndsPlain(Written(p, Update, cols))
  {
    var sets, where_ := SetList(p, cols), [Text(" WHERE ")];
    Words();
    SoundSets(p, cols);
    SoundOne(Text(" WHERE "));
    SoundAppend(sets, where_);
    SoundAfter(" SET ", sets + where_);
    SoundTarget(p, [Text(" SET ")] + (sets + where_));
    SoundAfter("UPDATE ", Target(p) + ([Text(" SET ")] + (sets + where_)));
  }

  lemma SoundShort(p: Policy, op: Operation)
    requires !op.Update?
    ensures Sound(Written(p, op, [])) && EndsPlain(Written(p, op, []))
  {
    Words();
    Verbs();
    var word := if op.Insert? then " DEFAULT VALUES" else " WHERE ";
    SoundOne(Text(word));
    SoundTarget(p, [Text(word)]);
    SoundAfter(if op.Insert? then "INSERT INTO " else "DELETE FROM ", Target(p) + [Text(word)]);
  }

  lemma StatementSound(p: Policy, op: Operation, cols: seq<nat>)
    requires PolicyOk(p) && Columns(p, cols) && (op.Delete? ==> cols == [])
    ensures Sound(Statement(p, op, cols))
  {
    if op.Update? { SoundUpdate(p, cols); } else if cols == [] { SoundShort(p, op); } else { SoundInsert(p, cols); }
    SoundPicked(p, op, |cols|);
    SoundReturning(p);
    SoundAppend(Picked(p, op, |cols|), Returning(p));
    SoundAppend(Written(p, op, cols), Picked(p, op, |cols|) + Returning(p));
  }

  // ----- what a reader finds

  function NamesOf(p: Policy, cols: seq<nat>): (r: seq<string>)
    requires forall i :: 0 <= i < |cols| ==> cols[i] < |p.columns|
    ensures |r| == |cols| && forall i :: 0 <= i < |cols| ==> r[i] == p.columns[cols[i]].name
  {
    seq(|cols|, i requires 0 <= i < |cols| => p.columns[cols[i]].name)
  }

  /** Numbers from `from + 1` on. */
  function UpTo(from: nat, n: nat): (r: seq<nat>)
    ensures |r| == n && forall i :: 0 <= i < n ==> r[i] == from + i + 1
  {
    seq(n, i requires 0 <= i < n => from + i + 1)
  }

  function SetsOf(p: Policy, cols: seq<nat>): (r: seq<Assignment>)
    requires forall i :: 0 <= i < |cols| ==> cols[i] < |p.columns|
    ensures |r| == |cols| && forall i :: 0 <= i < |cols| ==> r[i] == Assignment(p.columns[cols[i]].name, i + 1)
  {
    seq(|cols|, i requires 0 <= i < |cols| => Assignment(p.columns[cols[i]].name, i + 1))
  }

  function KeyTestsOf(p: Policy, n: nat, base: nat): (r: seq<Test>)
    requires PolicyOk(p) && n <= |p.keys|
    ensures |r| == n && forall j :: 0 <= j < n ==> r[j] == SameAs(p.columns[p.keys[j]].name, base + j + 1)
  {
    seq(n, j requires 0 <= j < n => SameAs(p.columns[p.keys[j]].name, base + j + 1))
  }

  function VersionTestOf(p: Policy, number: nat): seq<Test>
    requires PolicyOk(p)
  {
    match p.mode
    case Off => []
    case Xmin => [XminIs(number)]
    case Version(v) => [SameAs(p.columns[v].name, number)]
  }

  function TestsOf(p: Policy, base: nat): seq<Test>
    requires PolicyOk(p)
  {
    KeyTestsOf(p, |p.keys|, base) + VersionTestOf(p, base + |p.keys| + 1)
  }

  function KeyItems(p: Policy, cols: seq<nat>): (r: seq<Item>)
    requires forall i :: 0 <= i < |cols| ==> cols[i] < |p.columns|
    ensures |r| == |cols| && forall i :: 0 <= i < |cols| ==> r[i] == ColumnItem(p.columns[cols[i]].name)
  {
    seq(|cols|, i requires 0 <= i < |cols| => ColumnItem(p.columns[cols[i]].name))
  }

  function VersionItem(p: Policy): seq<Item>
    requires PolicyOk(p)
  {
    match p.mode
    case Off => []
    case Xmin => [XminItem]
    case Version(v) => [ColumnItem(p.columns[v].name)]
  }

  /** The statement meant for a write. */
  function SqlOf(p: Policy, op: Operation, cols: seq<nat>): Sql
    requires PolicyOk(p) && forall i :: 0 <= i < |cols| ==> cols[i] < |p.columns|
  {
    var table, returned := Table(p.schema, p.relation), KeyItems(p, p.keys) + VersionItem(p);
    match op
    case Insert => InsertSql(table, NamesOf(p, cols), UpTo(0, |cols|), returned)
    case Update => UpdateSql(table, SetsOf(p, cols), TestsOf(p, |cols|), returned)
    case Delete => DeleteSql(table, TestsOf(p, |cols|), returned)
  }

  // ----- the text says that

  lemma SeenAppend(a: seq<Token>, b: seq<Token>)
    ensures AllSeen(a + b) == AllSeen(a) + AllSeen(b)
  {
    ConcatAppend(Seen, a, b);
  }

  lemma SeenWord(word: string)
    ensures AllSeen([Text(word)]) == Letters(word)
  {
    ConcatOne(Seen, Text(word));
  }

  lemma SeenMark(t: Token)
    requires !t.Text?
    ensures AllSeen([t]) == [t]
  {
    ConcatOne(Seen, t);
  }

  lemma SeenAfter(word: string, rest: seq<Token>)
    ensures AllSeen([Text(word)] + rest) == Letters(word) + AllSeen(rest)
  {
    SeenAppend([Text(word)], rest);
    SeenWord(word);
  }

  lemma SeenBefore(rest: seq<Token>, word: string)
    ensures AllSeen(rest + [Text(word)]) == AllSeen(rest) + Letters(word)
  {
    SeenAppend(rest, [Text(word)]);
    SeenWord(word);
  }

  /** A mark, a word and a mark. */
  lemma SeenThree(a: Token, word: string, b: Token)
    requires !a.Text? && !b.Text?
    ensures AllSeen([a] + [Text(word)] + [b]) == [a] + (Letters(word) + [b])
  {
    SeenMark(a);
    SeenMark(b);
    SeenBefore([a], word);
    SeenAppend([a] + [Text(word)], [b]);
    Assoc([a], Letters(word), [b]);
  }

  /** A separator unless the item is the first one. */
  lemma SeenSeparated(first: bool, word: string, t: seq<Token>)
    ensures AllSeen((if first then [] else [Text(word)]) + t) == (if first then [] else Letters(word)) + AllSeen(t)
  {
    if first { assert [] + t == t && [] + AllSeen(t) == AllSeen(t); } else { SeenAfter(word, t); }
  }

  /** One more item at the end of a list. */
  lemma SeenNext<T>(put: T -> seq<Token>, word: string, before: seq<T>, x: T, all: seq<T>,
                    front: seq<Token>, t: seq<Token>, whole: seq<Token>)
    requires all == before + [x] && AllSeen(front) == Joined(put, word, before) && AllSeen(t) == put(x)
    requires whole == front + ((if |before| == 0 then [] else [Text(word)]) + t)
    ensures AllSeen(whole) == Joined(put, word, all)
  {
    SeenSeparated(before == [], word, t);
    SeenAppend(front, (if before == [] then [] else [Text(word)]) + t);
    JoinedNext(put, word, before, x);
  }

  lemma {:induction false} NamesSeen(p: Policy, cols: seq<nat>)
    requires Columns(p, cols)
    ensures AllSeen(NameList(p, cols)) == Joined(PutColumn, COMMA, NamesOf(p, cols))
  {
    if cols != [] {
      var n := |cols| - 1;
      NamesSeen(p, cols[..n]);
      SeenMark(NameAt(p, cols[n]));
      SeenNext(PutColumn, COMMA, NamesOf(p, cols[..n]), p.columns[cols[n]].name, NamesOf(p, cols),
               NameList(p, cols[..n]), [NameAt(p, cols[n])], NameList(p, cols));
    }
  }

  lemma {:induction false} KeyItemsSeen(p: Policy, cols: seq<nat>)
    requires Columns(p, cols)
    ensures AllSeen(NameList(p, cols)) == Joined(PutItem, COMMA, KeyItems(p, cols))
  {
    if cols != [] {
      var n := |cols| - 1;
      KeyItemsSeen(p, cols[..n]);
      SeenMark(NameAt(p, cols[n]));
      SeenNext(PutItem, COMMA, KeyItems(p, cols[..n]), ColumnItem(p.columns[cols[n]].name), KeyItems(p, cols),
               NameList(p, cols[..n]), [NameAt(p, cols[n])], NameList(p, cols));
    }
  }

  lemma {:induction false} ValuesSeen(n: nat)
    ensures AllSeen(ValueList(n)) == Joined(PutValue, COMMA, UpTo(0, n))
  {
    if n > 0 {
      ValuesSeen(n - 1);
      SeenMark(Parameter(n));
      SeenNext(PutValue, COMMA, UpTo(0, n - 1), n, UpTo(0, n), ValueList(n - 1), [Parameter(n)], ValueList(n));
    }
  }

  lemma {:induction false} SetsSeen(p: Policy, cols: seq<nat>)
    requires Columns(p, cols)
    ensures AllSeen(SetList(p, cols)) == Joined(PutAssignment, COMMA, SetsOf(p, cols))
  {
    if cols != [] {
      var n := |cols| - 1;
      SetsSeen(p, cols[..n]);
      var name, value := NameAt(p, cols[n]), Parameter(n + 1);
      SeenThree(name, EQUALS, value);
      assert [name, Text("="), value] == [name] + [Text(EQUALS)] + [value];
      SeenNext(PutAssignment, COMMA, SetsOf(p, cols[..n]), Assignment(p.columns[cols[n]].name, n + 1), SetsOf(p, cols),
               SetList(p, cols[..n]), [name, Text("="), value], SetList(p, cols));
    }
  }

  lemma SameSeen(name: Token, number: nat)
    requires name.Name?
    ensures AllSeen(Same(name, number)) == PutTest(SameAs(name.name, number))
  {
    SeenThree(name, SAME, Parameter(number));
  }

  lemma KeyTestsNext(p: Policy, n: nat, base: nat)
    requires PolicyOk(p) && 0 < n <= |p.keys|
    ensures KeyTestsOf(p, n, base) == KeyTestsOf(p, n - 1, base) + [SameAs(p.columns[p.keys[n - 1]].name, base + n)]
  {
  }

  lemma TestSeenNext(front: seq<Token>, before: seq<Test>, name: Token, number: nat, t: seq<Token>, all: seq<Test>)
    requires name.Name? && AllSeen(front) == Joined(PutTest, AND, before)
    requires t == front + (And(|before| == 0) + Same(name, number)) && all == before + [SameAs(name.name, number)]
    ensures AllSeen(t) == Joined(PutTest, AND, all)
  {
    SameSeen(name, number);
    SeenNext(PutTest, AND, before, SameAs(name.name, number), all, front, Same(name, number), t);
  }

  lemma {:induction false} KeyTestsSeen(p: Policy, n: nat, base: nat)
    requires PolicyOk(p) && n <= |p.keys|
    ensures AllSeen(KeyTests(p, n, base)) == Joined(PutTest, AND, KeyTestsOf(p, n, base))
  {
    if n > 0 {
      KeyTestsSeen(p, n - 1, base);
      KeyTestsNext(p, n, base);
      TestSeenNext(KeyTests(p, n - 1, base), KeyTestsOf(p, n - 1, base), NameAt(p, p.keys[n - 1]), base + n,
                   KeyTests(p, n, base), KeyTestsOf(p, n, base));
    }
  }

  lemma XminSeen(number: nat)
    ensures AllSeen([Text(" AND xmin=")] + [Parameter(number)] + [Text("::pg_catalog.xid")])
            == Letters(AND) + PutTest(XminIs(number))
  {
    SeenMark(Parameter(number));
    SeenAfter(" AND xmin=", [Parameter(number)]);
    SeenBefore([Text(" AND xmin=")] + [Parameter(number)], "::pg_catalog.xid");
    LettersAppend(AND, XMIN_IS);
    assert AND + XMIN_IS == " AND xmin=";
    Grouped(Letters(AND), Letters(XMIN_IS), [Parameter(number)], Letters(AS_XID));
  }

  lemma Grouped(a: seq<Token>, b: seq<Token>, c: seq<Token>, d: seq<Token>)
    ensures a + b + c + d == a + (b + (c + d))
  {
  }

  /** The version test or version item behind the others. */
  lemma SeenLast<T>(put: T -> seq<Token>, word: string, before: seq<T>, x: T, front: seq<Token>, t: seq<Token>)
    requires before != [] && AllSeen(front) == Joined(put, word, before) && AllSeen(t) == Letters(word) + put(x)
    ensures AllSeen(front + t) == Joined(put, word, before + [x])
  {
    SeenAppend(front, t);
    JoinedNext(put, word, before, x);
  }

  lemma VersionTestSeen(p: Policy, number: nat)
    requires PolicyOk(p) && !p.mode.Off?
    ensures |VersionTestOf(p, number)| == 1
    ensures AllSeen(VersionTest(p, number)) == Letters(AND) + PutTest(VersionTestOf(p, number)[0])
  {
    if p.mode.Xmin? {
      XminSeen(number);
    } else {
      SameSeen(NameAt(p, p.mode.column), number);
      SeenAfter(AND, Same(NameAt(p, p.mode.column), number));
    }
  }

  lemma TestsSeen(p: Policy, base: nat)
    requires PolicyOk(p)
    ensures AllSeen(KeyTests(p, |p.keys|, base) + VersionTest(p, base + |p.keys| + 1)) == Joined(PutTest, AND, TestsOf(p, base))
  {
    var number, keys, front := base + |p.keys| + 1, KeyTestsOf(p, |p.keys|, base), KeyTests(p, |p.keys|, base);
    KeyTestsSeen(p, |p.keys|, base);
    if p.mode.Off? {
      assert keys + [] == keys && front + [] == front;
    } else {
      VersionTestSeen(p, number);
      SeenLast(PutTest, AND, keys, VersionTestOf(p, number)[0], front, VersionTest(p, number));
      assert VersionTestOf(p, number) == [VersionTestOf(p, number)[0]];
    }
  }

  lemma VersionItemSeen(p: Policy)
    requires PolicyOk(p) && !p.mode.Off?
    ensures |VersionItem(p)| == 1 && AllSeen(VersionReturn(p)) == Letters(COMMA) + PutItem(VersionItem(p)[0])
  {
    if p.mode.Xmin? {
      XminTextSeen();
    } else {
      SeenMark(NameAt(p, p.mode.column));
      SeenAfter(COMMA, [NameAt(p, p.mode.column)]);
      assert VersionReturn(p) == [Text(COMMA)] + [NameAt(p, p.mode.column)];
    }
  }

  lemma ItemsSeen(p: Policy)
    requires PolicyOk(p)
    ensures AllSeen(NameList(p, p.keys) + VersionReturn(p)) == Joined(PutItem, COMMA, KeyItems(p, p.keys) + VersionItem(p))
  {
    var keys, front := KeyItems(p, p.keys), NameList(p, p.keys);
    KeyItemsSeen(p, p.keys);
    if p.mode.Off? {
      assert keys + [] == keys && front + [] == front;
    } else {
      VersionItemSeen(p);
      SeenLast(PutItem, COMMA, keys, VersionItem(p)[0], front, VersionReturn(p));
      assert VersionItem(p) == [VersionItem(p)[0]];
    }
  }

  lemma XminTextSeen()
    ensures AllSeen([Text(",xmin::pg_catalog.text")]) == Letters(COMMA) + PutItem(XminItem)
  {
    SeenWord(",xmin::pg_catalog.text");
    LettersAppend(COMMA, XMIN_TEXT);
    assert COMMA + XMIN_TEXT == ",xmin::pg_catalog.text";
  }

  lemma ReturningSeen(p: Policy)
    requires PolicyOk(p)
    ensures AllSeen(Returning(p)) == PutReturned(KeyItems(p, p.keys) + VersionItem(p))
  {
    ItemsSeen(p);
    SeenAfter(RETURNING, NameList(p, p.keys) + VersionReturn(p));
  }

  /** A verb, the table, and the rest. */
  lemma TargetSeen(verb: string, p: Policy, rest: seq<Token>)
    ensures AllSeen([Text(verb)] + (Target(p) + rest)) == Letters(verb) + (PutTable(Table(p.schema, p.relation)) + AllSeen(rest))
  {
    SeenThree(Name(p.schema), DOT, Name(p.relation));
    assert Target(p) == [Name(p.schema)] + [Text(DOT)] + [Name(p.relation)];
    SeenAppend(Target(p), rest);
    SeenAfter(verb, Target(p) + rest);
  }

  lemma ListsSeen(names: seq<Token>, values: seq<Token>)
    ensures AllSeen([Text(" (")] + (names + ([Text(") VALUES (")] + (values + [Text(")")]))))
            == Letters(OPEN) + (AllSeen(names) + (Letters(VALUES) + (AllSeen(values) + Letters(CLOSE))))
  {
    SeenBefore(values, CLOSE);
    SeenAfter(VALUES, values + [Text(CLOSE)]);
    SeenAppend(names, [Text(VALUES)] + (values + [Text(CLOSE)]));
    SeenAfter(OPEN, names + ([Text(VALUES)] + (values + [Text(CLOSE)])));
  }

  /** The columns and values of an INSERT. */
  ghost function InsertValues(p: Policy, cols: seq<nat>): seq<Token>
    requires Columns(p, cols)
  {
    if cols == [] then [Text(" DEFAULT VALUES")]
    else [Text(" (")] + (NameList(p, cols) + ([Text(") VALUES (")] + (ValueList(|cols|) + [Text(")")])))
  }

  lemma InsertValuesSeen(p: Policy, cols: seq<nat>)
    requires Columns(p, cols)
    ensures AllSeen(InsertValues(p, cols)) == PutValues(NamesOf(p, cols), UpTo(0, |cols|))
  {
    if cols == [] {
      SeenWord(DEFAULT_VALUES);
    } else {
      NamesSeen(p, cols);
      ValuesSeen(|cols|);
      ListsSeen(NameList(p, cols), ValueList(|cols|));
    }
  }

  lemma InsertShape(p: Policy, cols: seq<nat>)
    requires PolicyOk(p) && Columns(p, cols)
    ensures Statement(p, Insert, cols) == [Text(INSERT_INTO)] + (Target(p) + (InsertValues(p, cols) + Returning(p)))
  {
    assert [] + Returning(p) == Returning(p);
    Regroup([Text(INSERT_INTO)], Target(p), InsertValues(p, cols), Returning(p));
  }

  lemma InsertSeen(p: Policy, cols: seq<nat>)
    requires PolicyOk(p) && Columns(p, cols)
    ensures AllSeen(Statement(p, Insert, cols)) == PutSql(SqlOf(p, Insert, cols))
  {
    InsertShape(p, cols);
    TargetSeen(INSERT_INTO, p, InsertValues(p, cols) + Returning(p));
    SeenAppend(InsertValues(p, cols), Returning(p));
    InsertValuesSeen(p, cols);
    ReturningSeen(p);
  }

  /** ` WHERE `, the tests and what is returned. */
  ghost function Clause(p: Policy, base: nat): seq<Token>
    requires PolicyOk(p)
  {
    Following(KeyTests(p, |p.keys|, base) + VersionTest(p, base + |p.keys| + 1), Returning(p))
  }

  function Following(tests: seq<Token>, returned: seq<Token>): seq<Token> {
    [Text(WHERE)] + (tests + returned)
  }

  lemma ClauseSeen(p: Policy, base: nat)
    requires PolicyOk(p)
    ensures AllSeen(Clause(p, base)) == PutWhere(TestsOf(p, base), KeyItems(p, p.keys) + VersionItem(p))
  {
    var tests, meant := TestsPart(p, base);
    var returned, items := ReturnedPart(p);
    WhereSeen(tests, returned, meant, items);
  }

  lemma TestsPart(p: Policy, base: nat) returns (tests: seq<Token>, meant: seq<Test>)
    requires PolicyOk(p)
    ensures tests == KeyTests(p, |p.keys|, base) + VersionTest(p, base + |p.keys| + 1)
    ensures meant == TestsOf(p, base) && AllSeen(tests) == Joined(PutTest, AND, meant)
  {
    tests, meant := KeyTests(p, |p.keys|, base) + VersionTest(p, base + |p.keys| + 1), TestsOf(p, base);
    TestsSeen(p, base);
  }

  lemma ReturnedPart(p: Policy) returns (returned: seq<Token>, items: seq<Item>)
    requires PolicyOk(p)
    ensures returned == Returning(p) && items == KeyItems(p, p.keys) + VersionItem(p)
    ensures AllSeen(returned) == PutReturned(items)
  {
    returned, items := Returning(p), KeyItems(p, p.keys) + VersionItem(p);
    ReturningSeen(p);
  }

  lemma WhereSeen(tests: seq<Token>, returned: seq<Token>, meant: seq<Test>, items: seq<Item>)
    requires AllSeen(tests) == Joined(PutTest, AND, meant) && AllSeen(returned) == PutReturned(items)
    ensures AllSeen(Following(tests, returned)) == PutWhere(meant, items)
  {
    SeenAppend(tests, returned);
    SeenAfter(WHERE, tests + returned);
  }

  lemma UpdateShape(p: Policy, cols: seq<nat>)
    requires PolicyOk(p) && Columns(p, cols)
    ensures Statement(p, Update, cols) == [Text(UPDATE)] + (Target(p) + ([Text(SET)] + (SetList(p, cols) + Clause(p, |cols|))))
  {
    var sets, picked := SetList(p, cols), Picked(p, Update, |cols|);
    UpdateWritten(p, cols);
    UpdateGroup([Text(UPDATE)], Target(p), [Text(SET)], sets, [Text(WHERE)], picked, Returning(p));
  }

  lemma UpdateWritten(p: Policy, cols: seq<nat>)
    requires Columns(p, cols)
    ensures Written(p, Update, cols) == [Text(UPDATE)] + (Target(p) + ([Text(SET)] + (SetList(p, cols) + [Text(WHERE)])))
  {
  }

  lemma UpdateSeen(p: Policy, cols: seq<nat>)
    requires PolicyOk(p) && Columns(p, cols)
    ensures AllSeen(Statement(p, Update, cols)) == PutSql(SqlOf(p, Update, cols))
  {
    var clause, sets := Clause(p, |cols|), SetList(p, cols);
    UpdateShape(p, cols);
    TargetSeen(UPDATE, p, [Text(SET)] + (sets + clause));
    SeenAfter(SET, sets + clause);
    SeenAppend(sets, clause);
    SetsSeen(p, cols);
    ClauseSeen(p, |cols|);
  }

  lemma UpdateGroup(a: seq<Token>, b: seq<Token>, c: seq<Token>, d: seq<Token>, e: seq<Token>, f: seq<Token>, g: seq<Token>)
    ensures a + (b + (c + (d + e))) + (f + g) == a + (b + (c + (d + (e + (f + g)))))
  {
    GroupFive(a, b, c, d, e, f + g);
  }

  lemma DeleteSeen(p: Policy)
    requires PolicyOk(p)
    ensures AllSeen(Statement(p, Delete, [])) == PutSql(SqlOf(p, Delete, []))
  {
    ClauseSeen(p, 0);
    TargetSeen(DELETE_FROM, p, Clause(p, 0));
    Regroup([Text(DELETE_FROM)], Target(p), [Text(WHERE)], Picked(p, Delete, 0) + Returning(p));
    assert Statement(p, Delete, []) == [Text(DELETE_FROM)] + (Target(p) + Clause(p, 0));
  }

  /** A request with something to say: an UPDATE sets something, a DELETE nothing. */
  ghost predicate Sayable(p: Policy, op: Operation, cols: seq<nat>) {
    PolicyOk(p) && Columns(p, cols) && (op.Delete? ==> cols == []) && (op.Update? ==> cols != [])
  }

  /** Every write the planner accepts is one. */
  lemma PlannableIsSayable(p: Policy, op: Operation, cols: seq<nat>, id: Option<Identity>)
    requires PolicyOk(p) && Columns(p, cols) && Plannable(p, op, cols, id)
    ensures Sayable(p, op, cols)
  {
  }

  /** Reading a statement's text, letter by letter, gives the statement that was meant: table,
      written columns with their values, one null-safe test for each key column, the version
      test, and the returned columns. Names come back as they were, whatever quotes they hold. */
  lemma StatementReadsBack(p: Policy, op: Operation, cols: seq<nat>)
    requires Sayable(p, op, cols)
    ensures ReadSql(Render(Statement(p, op, cols))) == Some(SqlOf(p, op, cols))
  {
    var t := Statement(p, op, cols);
    StatementSound(p, op, cols);
    SoundIsPlain(t);
    PlainIsReadable(t);
    ScanRender(t);
    match op {
      case Insert => InsertSeen(p, cols);
      case Update => UpdateSeen(p, cols);
      case Delete => DeleteSeen(p);
    }
    SqlReads(SqlOf(p, op, cols));
  }

  // ----- placeholders and slots

  /** Placeholders read $1, $2, ... from left to right, one for each slot. */
  lemma PlaceholdersInOrder(p: Policy, op: Operation, cols: seq<nat>)
    requires Sayable(p, op, cols)
    ensures ReadSql(Render(Statement(p, op, cols))).Some?
    ensures Parameters(ReadSql(Render(Statement(p, op, cols))).value) == UpTo(0, |Slots(p, op, cols)|)
  {
    StatementReadsBack(p, op, cols);
    ParametersCount(p, op, cols);
    SlotCountIs(p, op, cols);
  }

  lemma ParametersCount(p: Policy, op: Operation, cols: seq<nat>)
    requires PolicyOk(p) && Columns(p, cols) && (op.Delete? ==> cols == [])
    ensures Parameters(SqlOf(p, op, cols)) == UpTo(0, SlotCount(p, op, cols))
  {
    var sql := SqlOf(p, op, cols);
    if !op.Insert? {
      TestNumbersAre(p, |cols|);
      if op.Update? { SetNumbersAre(p, cols); }
      ParametersOf(sql, |cols|, |p.keys| + |VersionSlots(p)|);
    }
  }

  lemma ParametersOf(sql: Sql, n: nat, m: nat)
    requires !sql.InsertSql? && TestNumbers(sql.tests) == UpTo(n, m)
    requires if sql.UpdateSql? then SetNumbers(sql.sets) == UpTo(0, n) else n == 0
    ensures Parameters(sql) == UpTo(0, n + m)
  {
    UpToJoin(0, n, m);
  }

  lemma UpToJoin(a: nat, n: nat, m: nat)
    ensures UpTo(a, n) + UpTo(a + n, m) == UpTo(a, n + m)
  {
  }

  lemma SetNumbersAre(p: Policy, cols: seq<nat>)
    requires Columns(p, cols)
    ensures SetNumbers(SetsOf(p, cols)) == UpTo(0, |cols|)
  {
  }

  lemma TestNumbersAre(p: Policy, base: nat)
    requires PolicyOk(p)
    ensures TestNumbers(TestsOf(p, base)) == UpTo(base, |p.keys| + |VersionSlots(p)|)
  {
  }

  function SlotCount(p: Policy, op: Operation, cols: seq<nat>): nat
    requires PolicyOk(p)
  {
    |cols| + if op.Insert? then 0 else |p.keys| + |VersionSlots(p)|
  }

  lemma SlotCountIs(p: Policy, op: Operation, cols: seq<nat>)
    requires PolicyOk(p) && Columns(p, cols) && (op.Delete? ==> cols == [])
    ensures |Slots(p, op, cols)| == SlotCount(p, op, cols)
  {
  }

  /** Slot `k` describes the value at `$k`, beside the name of its column in the text. */
  lemma ValueSlotDescribes(p: Policy, op: Operation, cols: seq<nat>, i: nat)
    requires Sayable(p, op, cols) && !op.Delete? && i < |cols|
    ensures i < |Slots(p, op, cols)| && Slots(p, op, cols)[i] == Slot(NewValue, cols[i], p.columns[cols[i]].typeOid)
    ensures ReadSql(Render(Statement(p, op, cols))).Some?
    ensures var sql := ReadSql(Render(Statement(p, op, cols))).value;
            if op.Insert?
              then sql.InsertSql? && |sql.columns| == |sql.values| == |cols| && sql.columns[i] == p.columns[cols[i]].name
                   && sql.values[i] == i + 1
              else sql.UpdateSql? && |sql.sets| == |cols| && sql.sets[i] == Assignment(p.columns[cols[i]].name, i + 1)
  {
    StatementReadsBack(p, op, cols);
    assert NewSlots(p, cols)[i] == Slot(NewValue, cols[i], p.columns[cols[i]].typeOid);
  }

  /** The slots of the old key values follow, each beside its key column's name. */
  lemma KeySlotDescribes(p: Policy, op: Operation, cols: seq<nat>, j: nat)
    requires Sayable(p, op, cols) && !op.Insert? && j < |p.keys|
    ensures |cols| + j < |Slots(p, op, cols)|
    ensures Slots(p, op, cols)[|cols| + j] == Slot(OldKey, j, p.columns[p.keys[j]].typeOid)
    ensures ReadSql(Render(Statement(p, op, cols))).Some?
    ensures var sql := ReadSql(Render(Statement(p, op, cols))).value;
            !sql.InsertSql? && |sql.tests| >= |p.keys| && sql.tests[j] == SameAs(p.columns[p.keys[j]].name, |cols| + j + 1)
  {
    KeySlotAt(p, op, cols, j);
    StatementReadsBack(p, op, cols);
    KeyTestAt(p, op, cols, j);
  }

  lemma KeyTestAt(p: Policy, op: Operation, cols: seq<nat>, j: nat)
    requires PolicyOk(p) && Columns(p, cols) && !op.Insert? && j < |p.keys|
    ensures var sql := SqlOf(p, op, cols);
            !sql.InsertSql? && |sql.tests| >= |p.keys| && sql.tests[j] == SameAs(p.columns[p.keys[j]].name, |cols| + j + 1)
  {
    assert TestsOf(p, |cols|)[j] == KeyTestsOf(p, |p.keys|, |cols|)[j];
  }

  lemma KeySlotAt(p: Policy, op: Operation, cols: seq<nat>, j: nat)
    requires PolicyOk(p) && Columns(p, cols) && (op.Delete? ==> cols == []) && !op.Insert? && j < |p.keys|
    ensures |cols| + j < |Slots(p, op, cols)|
    ensures Slots(p, op, cols)[|cols| + j] == Slot(OldKey, j, p.columns[p.keys[j]].typeOid)
  {
    assert KeySlots(p, |p.keys|)[j] == Slot(OldKey, j, p.columns[p.keys[j]].typeOid);
    SlotAt(NewSlots(p, cols), KeySlots(p, |p.keys|), VersionSlots(p), j);
  }

  lemma SlotAt(a: seq<Slot>, b: seq<Slot>, c: seq<Slot>, j: nat)
    requires j < |b|
    ensures (a + b + c)[|a| + j] == b[j] && (b + c)[j] == b[j]
  {
  }

  // ----- which rows a statement touches

  /** Two values SQL does not tell apart: both NULL, or the same value. */
  ghost predicate HasKey<V>(p: Policy, row: Row<V>, args: seq<Value<V>>, base: nat)
    requires PolicyOk(p) && base + |p.keys| <= |args|
  {
    forall j :: 0 <= j < |p.keys| ==> row.at(p.columns[p.keys[j]].name) == args[base + j]
  }

  /** The old version is still there; a NULL old version never matches `xmin`. */
  ghost predicate HasVersion<V>(p: Policy, row: Row<V>, args: seq<Value<V>>, base: nat)
    requires PolicyOk(p) && base + |p.keys| + |VersionSlots(p)| <= |args|
  {
    match p.mode
    case Off => true
    case Xmin => args[base + |p.keys|] == Known(row.xmin)
    case Version(v) => row.at(p.columns[v].name) == args[base + |p.keys|]
  }

  lemma NotDistinctIff<V>(a: Value<V>, b: Value<V>)
    ensures NotDistinct(a, b).True? <==> a == b
    ensures Equals(a, b).True? <==> a == b && a.Known?
  {
  }

  lemma KeyTestIff<V>(p: Policy, base: nat, args: seq<Value<V>>, row: Row<V>)
    requires PolicyOk(p) && base + |p.keys| <= |args|
    ensures (forall j :: 0 <= j < |p.keys| ==> TestOf(KeyTestsOf(p, |p.keys|, base)[j], args, row).True?)
            <==> HasKey(p, row, args, base)
  {
    forall j | 0 <= j < |p.keys|
      ensures TestOf(KeyTestsOf(p, |p.keys|, base)[j], args, row).True?
              <==> row.at(p.columns[p.keys[j]].name) == args[base + j] {
      NotDistinctIff(row.at(p.columns[p.keys[j]].name), args[base + j]);
    }
  }

  lemma {:induction false} WhereAppend<V>(a: seq<Test>, b: seq<Test>, args: seq<Value<V>>, row: Row<V>)
    ensures Where(a + b, args, row).True? <==> Where(a, args, row).True? && Where(b, args, row).True?
  {
    if a == [] {
      assert a + b == b;
    } else {
      WhereAppend(a[1..], b, args, row);
      assert (a + b)[1..] == a[1..] + b && (a + b)[0] == a[0];
    }
  }

  lemma VersionTestIff<V>(p: Policy, base: nat, args: seq<Value<V>>, row: Row<V>)
    requires PolicyOk(p) && base + |p.keys| + |VersionSlots(p)| <= |args|
    ensures Where(VersionTestOf(p, base + |p.keys| + 1), args, row).True? <==> HasVersion(p, row, args, base)
  {
    WhereIff(VersionTestOf(p, base + |p.keys| + 1), args, row);
    match p.mode
    case Off =>
    case Xmin => assert VersionTestOf(p, base + |p.keys| + 1)[0] == XminIs(base + |p.keys| + 1);
    case Version(v) =>
      assert VersionTestOf(p, base + |p.keys| + 1)[0] == SameAs(p.columns[v].name, base + |p.keys| + 1);
      NotDistinctIff(row.at(p.columns[v].name), args[base + |p.keys|]);
  }

  /** The text of an UPDATE or DELETE selects exactly the rows with the old key and the old
      version, whatever is NULL. */
  lemma SelectedIff<V>(p: Policy, op: Operation, cols: seq<nat>, args: seq<Value<V>>, row: Row<V>)
    requires Sayable(p, op, cols) && !op.Insert? && |args| == |Slots(p, op, cols)|
    ensures |cols| + |p.keys| + |VersionSlots(p)| == |args|
    ensures Selected(Render(Statement(p, op, cols)), args, row)
            <==> HasKey(p, row, args, |cols|) && HasVersion(p, row, args, |cols|)
  {
    SlotCountIs(p, op, cols);
    StatementReadsBack(p, op, cols);
    TestsIff(p, |cols|, args, row);
  }

  lemma TestsIff<V>(p: Policy, base: nat, args: seq<Value<V>>, row: Row<V>)
    requires PolicyOk(p) && base + |p.keys| + |VersionSlots(p)| <= |args|
    ensures Where(TestsOf(p, base), args, row).True? <==> HasKey(p, row, args, base) && HasVersion(p, row, args, base)
  {
    KeyTestIff(p, base, args, row);
    VersionTestIff(p, base, args, row);
    WhereIff(KeyTestsOf(p, |p.keys|, base), args, row);
    WhereAppend(KeyTestsOf(p, |p.keys|, base), VersionTestOf(p, base + |p.keys| + 1), args, row);
  }

  ghost predicate SameKey<V>(p: Policy, r: Row<V>, s: Row<V>)
    requires PolicyOk(p)
  {
    forall j :: 0 <= j < |p.keys| ==> r.at(p.columns[p.keys[j]].name) == s.at(p.columns[p.keys[j]].name)
  }

  ghost predicate Keyed<V(!new)>(p: Policy, table: seq<Row<V>>)
    requires PolicyOk(p)
  {
    forall i, j :: 0 <= i < j < |table| ==> !SameKey(p, table[i], table[j])
  }

  /** On a table whose key tuples are distinct, the text selects at most one row. */
  lemma AtMostOneRow<V(!new)>(p: Policy, op: Operation, cols: seq<nat>, args: seq<Value<V>>, table: seq<Row<V>>, a: nat, b: nat)
    requires Sayable(p, op, cols) && !op.Insert? && |args| == |Slots(p, op, cols)|
    requires Keyed(p, table) && a < |table| && b < |table|
    requires Selected(Render(Statement(p, op, cols)), args, table[a])
    requires Selected(Render(Statement(p, op, cols)), args, table[b])
    ensures a == b
  {
    SelectedIff(p, op, cols, args, table[a]);
    SelectedIff(p, op, cols, args, table[b]);
    assert SameKey(p, table[a], table[b]) && SameKey(p, table[b], table[a]);
  }

  lemma {:induction false} AssignedIs<V>(sets: seq<Assignment>, args: seq<Value<V>>, column: string, old_: Value<V>)
    requires forall i, j :: 0 <= i < j < |sets| ==> sets[i].column != sets[j].column
    ensures forall i :: 0 <= i < |sets| && sets[i].column == column ==>
      Assigned(sets, args, column, old_) == Argument(args, sets[i].number)
    ensures (forall i :: 0 <= i < |sets| ==> sets[i].column != column) ==> Assigned(sets, args, column, old_) == old_
  {
    if sets != [] { AssignedIs(sets[..|sets| - 1], args, column, old_); }
  }

  /** A written column holds its argument, any other column what it held. */
  ghost predicate Holds<V>(p: Policy, cols: seq<nat>, args: seq<Value<V>>, column: string, old_: Value<V>, new_: Value<V>)
    requires Columns(p, cols) && |cols| <= |args|
  {
    && (forall i :: 0 <= i < |cols| && p.columns[cols[i]].name == column ==> new_ == args[i])
    && ((forall i :: 0 <= i < |cols| ==> p.columns[cols[i]].name != column) ==> new_ == old_)
  }

  lemma AssignedHolds<V>(p: Policy, cols: seq<nat>, args: seq<Value<V>>, column: string, old_: Value<V>)
    requires Columns(p, cols) && |cols| <= |args|
    requires forall i, j :: 0 <= i < j < |cols| ==> p.columns[cols[i]].name != p.columns[cols[j]].name
    ensures Holds(p, cols, args, column, old_, Assigned(SetsOf(p, cols), args, column, old_))
  {
    var sets := SetsOf(p, cols);
    AssignedIs(sets, args, column, old_);
    forall i | 0 <= i < |cols| && p.columns[cols[i]].name == column
      ensures Assigned(sets, args, column, old_) == args[i] {
      assert sets[i] == Assignment(column, i + 1);
    }
  }

  /** An UPDATE gives every written column of a selected row its value, and leaves every other
      column and every other row alone. */
  lemma UpdateWrites<V>(p: Policy, cols: seq<nat>, args: seq<Value<V>>, row: Row<V>, column: string)
    requires Sayable(p, Update, cols) && |args| == |Slots(p, Update, cols)|
    requires forall i, j :: 0 <= i < j < |cols| ==> p.columns[cols[i]].name != p.columns[cols[j]].name
    ensures |cols| <= |args|
    ensures var query := Render(Statement(p, Update, cols));
            if Selected(query, args, row)
              then Holds(p, cols, args, column, row.at(column), ValueAfter(query, args, row, column))
              else ValueAfter(query, args, row, column) == row.at(column)
  {
    SlotCountIs(p, Update, cols);
    StatementReadsBack(p, Update, cols);
    AssignedHolds(p, cols, args, column, row.at(column));
  }

  // ----- what the count of affected rows says

  datatype Verdict = Done | NotFound | Conflict | Broken

  function ClassifyCount(op: Operation, mode: Mode, affected: nat): (v: Verdict)
    ensures v.Done? <==> affected == 1
    ensures v.NotFound? || v.Conflict? ==> affected == 0
    ensures v.Conflict? <==> affected == 0 && !mode.Off?
    ensures v.NotFound? <==> affected == 0 && mode.Off? && !op.Insert?
  {
    if affected == 1 then Done
    else if affected > 1 then Broken
    else if !mode.Off? then Conflict
    else if op.Insert? then Broken
    else NotFound
  }

  /** Some row of the table is selected. */
  ghost predicate Hit<V>(query: string, args: seq<Value<V>>, table: seq<Row<V>>) {
    exists i :: 0 <= i < |table| && Selected(query, args, table[i])
  }

  ghost predicate HitsOnce<V>(query: string, args: seq<Value<V>>, table: seq<Row<V>>) {
    forall i, j :: 0 <= i < j < |table| ==> !(Selected(query, args, table[i]) && Selected(query, args, table[j]))
  }

  lemma {:induction false} AffectedIs<V>(query: string, args: seq<Value<V>>, table: seq<Row<V>>)
    requires HitsOnce(query, args, table)
    ensures Affected(query, args, table) == if Hit(query, args, table) then 1 else 0
  {
    if table != [] {
      var more := table[1..];
      AffectedIs(query, args, more);
      HitFirst(query, args, table);
      if Selected(query, args, table[0]) {
        forall i | 0 <= i < |more| ensures !Selected(query, args, more[i]) { assert more[i] == table[i + 1]; }
      }
    }
  }

  lemma HitFirst<V>(query: string, args: seq<Value<V>>, table: seq<Row<V>>)
    requires table != []
    ensures Hit(query, args, table) <==> Selected(query, args, table[0]) || Hit(query, args, table[1..])
  {
    var more := table[1..];
    if Hit(query, args, more) {
      var i :| 0 <= i < |more| && Selected(query, args, more[i]);
      assert table[i + 1] == more[i];
    }
    if Hit(query, args, table) {
      var i :| 0 <= i < |table| && Selected(query, args, table[i]);
      if i > 0 { assert more[i - 1] == table[i]; }
    }
  }

  /** On a table with distinct keys the verdict on an UPDATE or DELETE is never "broken": the
      write is done exactly when a row with the old key and the old version is there, and
      otherwise the row is reported as changed or, without versions, as missing. */
  lemma VerdictIs<V(!new)>(p: Policy, op: Operation, cols: seq<nat>, args: seq<Value<V>>, table: seq<Row<V>>)
    requires Sayable(p, op, cols) && !op.Insert? && |args| == |Slots(p, op, cols)| && Keyed(p, table)
    ensures |cols| + |p.keys| + |VersionSlots(p)| == |args|
    ensures ClassifyCount(op, p.mode, Affected(Render(Statement(p, op, cols)), args, table))
            == if Present(p, table, args, |cols|) then Done else if p.mode.Off? then NotFound else Conflict
  {
    var query := Render(Statement(p, op, cols));
    SlotCountIs(p, op, cols);
    forall i, j | 0 <= i < j < |table| ensures !(Selected(query, args, table[i]) && Selected(query, args, table[j])) {
      if Selected(query, args, table[i]) && Selected(query, args, table[j]) { AtMostOneRow(p, op, cols, args, table, i, j); }
    }
    AffectedIs(query, args, table);
    forall i | 0 <= i < |table|
      ensures Selected(query, args, table[i]) <==> HasKey(p, table[i], args, |cols|) && HasVersion(p, table[i], args, |cols|) {
      SelectedIff(p, op, cols, args, table[i]);
    }
  }

  ghost predicate Present<V>(p: Policy, table: seq<Row<V>>, args: seq<Value<V>>, base: nat)
    requires PolicyOk(p) && base + |p.keys| + |VersionSlots(p)| <= |args|
  {
    exists i :: 0 <= i < |table| && HasKey(p, table[i], args, base) && HasVersion(p, table[i], args, base)
  }
}
