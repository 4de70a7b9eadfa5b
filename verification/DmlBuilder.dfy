/** The plan builder: text and slots are appended piece by piece; any failure drops the plan. */
module DmlBuilder {
  import opened Options
  import opened Concatenation
  import opened IdentityText
  import opened SqlText
  import opened DmlSpec

  datatype Status = Ok | InvalidArgument | GeneratedColumn | IdentityAlways | MalformedIdentity | OutOfMemory

  const MAX_PARAMETERS := 2 * 1024 + 32 + 1
  /** Stands in the returned columns for the system column. */
  const SYSTEM_COLUMN := 0xffff

  lemma MoreText(tokens: seq<Token>, piece: seq<Token>)
    ensures Render(tokens + piece) == Render(tokens) + Render(piece)
    ensures NamesOk(tokens + piece) <==> NamesOk(tokens) && NamesOk(piece)
  {
    RenderAppend(tokens, piece);
    var all := tokens + piece;
    if NamesOk(all) {
      forall i | 0 <= i < |tokens| && tokens[i].Name? ensures NameOk(tokens[i].name) { assert all[i] == tokens[i]; }
      forall i | 0 <= i < |piece| && piece[i].Name? ensures NameOk(piece[i].name) { assert all[|tokens| + i] == piece[i]; }
    }
  }

  lemma {:induction false} QuotedNext(name: string, i: nat)
    requires i < |name|
    ensures Quoted(name[..i + 1]) == Quoted(name[..i]) + (if name[i] == '"' then ['"', '"'] else [name[i]])
  {
    if i == 0 {
      assert name[..1] == [name[0]] && name[..0] == "";
      assert Quoted([name[0]]) == (if name[0] == '"' then ['"', '"'] else [name[0]]) + Quoted([name[0]][1..]);
    } else {
      QuotedNext(name[1..], i - 1);
      assert name[..i + 1][1..] == name[1..][..i] && name[..i][1..] == name[1..][..i - 1];
    }
  }

  lemma {:induction false} QuotedGrows(name: string, i: nat)
    requires i <= |name|
    ensures |Quoted(name[..i])| <= |Quoted(name)|
    decreases |name| - i
  {
    if i < |name| {
      QuotedNext(name, i);
      QuotedGrows(name, i + 1);
    } else {
      assert name[..i] == name;
    }
  }

  class WritePlan {
    const memory: bool
    var query: string
    var parameters: seq<Slot>
    var returning: seq<nat>
    ghost var tokens: seq<Token>

    ghost predicate Valid()
      reads this
    {
      query == Render(tokens) && Room(tokens)
    }

    constructor (memory: bool)
      ensures Valid() && tokens == [] && parameters == [] && returning == [] && this.memory == memory
    {
      this.memory := memory;
      query, parameters, returning, tokens := "", [], [], [];
    }

    // ----- pieces of text; each succeeds exactly when there is room for it

    method Append(s: string) returns (ok: bool)
      requires Valid()
      modifies `query, `tokens
      ensures ok <==> memory && Room(old(tokens) + [Text(s)])
      ensures ok ==> Valid() && tokens == old(tokens) + [Text(s)]
    {
      MoreText(tokens, [Text(s)]);
      ConcatOne(Write, Text(s));
      if !memory || |query| + |s| > QUERY_LIMIT { return false; }
      query, tokens := query + s, tokens + [Text(s)];
      ok := true;
    }

    /** Writes a quoted name character by character, doubling quotes. */
    method Identifier(name: string) returns (ok: bool)
      requires Valid()
      modifies `query, `tokens
      ensures ok <==> memory && Room(old(tokens) + [Name(name)])
      ensures ok ==> Valid() && tokens == old(tokens) + [Name(name)]
    {
      MoreText(tokens, [Name(name)]);
      ConcatOne(Write, Name(name));
      assert [Name(name)][0].Name?;
      if name == "" || !memory || |query| + 1 > QUERY_LIMIT { return false; }
      query := query + ['"'];
      ok := AppendQuoted(name);
      if !ok || |query| + 1 > QUERY_LIMIT { return false; }
      query, tokens := query + ['"'], tokens + [Name(name)];
    }

    method AppendQuoted(name: string) returns (ok: bool)
      requires |query| <= QUERY_LIMIT
      modifies `query
      ensures ok <==> '\0' !in name && old(|query|) + |Quoted(name)| <= QUERY_LIMIT
      ensures ok ==> query == old(query) + Quoted(name)
    {
      ghost var start := query;
      for i := 0 to |name|
        invariant query == start + Quoted(name[..i]) && |query| <= QUERY_LIMIT && '\0' !in name[..i]
      {
        if name[i] == '\0' { return false; }
        QuotedNext(name, i);
        QuotedGrows(name, i + 1);
        var piece := if name[i] == '"' then ['"', '"'] else [name[i]];
        if |query| + |piece| > QUERY_LIMIT { return false; }
        query := query + piece;
        assert name[..i + 1] == name[..i] + [name[i]];
      }
      assert name[..|name|] == name;
      ok := true;
    }

    method Placeholder(number: nat) returns (ok: bool)
      requires Valid()
      modifies `query, `tokens
      ensures ok <==> memory && Room(old(tokens) + [Parameter(number)])
      ensures ok ==> Valid() && tokens == old(tokens) + [Parameter(number)]
    {
      MoreText(tokens, [Parameter(number)]);
      ConcatOne(Write, Parameter(number));
      var text := ['$'] + Decimal(number);
      if !memory || |query| + |text| > QUERY_LIMIT { return false; }
      query, tokens := query + text, tokens + [Parameter(number)];
      ok := true;
    }

    method Target(p: Policy) returns (ok: bool)
      requires Valid()
      modifies `query, `tokens
      ensures ok <==> memory && Room(old(tokens) + DmlSpec.Target(p))
      ensures ok ==> Valid() && tokens == old(tokens) + DmlSpec.Target(p)
    {
      ghost var start, all := tokens, DmlSpec.Target(p);
      assert all == [Name(p.schema)] + ([Text(".")] + [Name(p.relation)]);
      NoRoom(start, [Name(p.schema)], [Text(".")] + [Name(p.relation)]);
      ok := Identifier(p.schema);
      if !ok { return; }
      assert start + all == tokens + ([Text(".")] + [Name(p.relation)]);
      NoRoom(tokens, [Text(".")], [Name(p.relation)]);
      ok := Append(".");
      if !ok { return; }
      assert start + all == tokens + [Name(p.relation)];
      ok := Identifier(p.relation);
    }

    /** Nothing, or a separator. */
    method Separate(first: bool, s: string) returns (ok: bool)
      requires Valid()
      modifies `query, `tokens
      ensures ok <==> first || (memory && Room(old(tokens) + [Text(s)]))
      ensures ok ==> Valid() && tokens == old(tokens) + if first then [] else [Text(s)]
    {
      assert tokens + [] == tokens;
      ok := true;
      if !first { ok := Append(s); }
    }

    method ListName(p: Policy, c: nat, first: bool) returns (ok: bool)
      requires Valid() && c < |p.columns|
      modifies `query, `tokens
      ensures ok <==> memory && Room(old(tokens) + (Comma(first) + [NameAt(p, c)]))
      ensures ok ==> Valid() && tokens == old(tokens) + (Comma(first) + [NameAt(p, c)])
    {
      ghost var start := tokens;
      CommaIs(first);
      NoRoom(tokens, Comma(first), [NameAt(p, c)]);
      ok := Separate(first, ",");
      if !ok { return; }
      Assoc(start, Comma(first), [NameAt(p, c)]);
      ok := Identifier(p.columns[c].name);
    }

    method Names(p: Policy, cols: seq<nat>) returns (ok: bool)
      requires Valid() && Columns(p, cols)
      modifies `query, `tokens
      ensures ok ==> Valid() && tokens == old(tokens) + NameList(p, cols)
      ensures !ok ==> !memory || !Room(old(tokens) + NameList(p, cols))
    {
      ghost var start := tokens;
      assert start + [] == start;
      for i := 0 to |cols|
        invariant Valid() && tokens == start + NameList(p, cols[..i])
      {
        NamesGrow(p, cols, i);
        Assoc(start, NameList(p, cols[..i]), Comma(i == 0) + [NameAt(p, cols[i])]);
        ok := ListName(p, cols[i], i == 0);
        if !ok {
          NamesBelow(p, cols, i + 1);
          RoomBelow(start, NameList(p, cols[..i + 1]), NameList(p, cols));
          return;
        }
      }
      assert cols[..|cols|] == cols;
      ok := true;
    }

    // ----- parameters; their number never reaches the limit

    method AddParameter(slot: Slot)
      requires |parameters| < MAX_PARAMETERS
      modifies `parameters
      ensures parameters == old(parameters) + [slot]
    {
      parameters := parameters + [slot];
    }

    method WriteValue(p: Policy, c: nat) returns (ok: bool)
      requires Valid() && c < |p.columns| && |parameters| < MAX_PARAMETERS
      modifies `query, `tokens, `parameters
      ensures ok <==> memory && Room(old(tokens) + [Parameter(old(|parameters|) + 1)])
      ensures ok ==> Valid() && tokens == old(tokens) + [Parameter(old(|parameters|) + 1)]
      ensures ok ==> parameters == old(parameters) + [Slot(NewValue, c, p.columns[c].typeOid)]
    {
      ok := Placeholder(|parameters| + 1);
      if ok { AddParameter(Slot(NewValue, c, p.columns[c].typeOid)); }
    }

    method ListValue(p: Policy, c: nat, first: bool) returns (ok: bool)
      requires Valid() && c < |p.columns| && |parameters| < MAX_PARAMETERS
      modifies `query, `tokens, `parameters
      ensures ok <==> memory && Room(old(tokens) + (Comma(first) + [Parameter(old(|parameters|) + 1)]))
      ensures ok ==> Valid() && tokens == old(tokens) + (Comma(first) + [Parameter(old(|parameters|) + 1)])
      ensures ok ==> parameters == old(parameters) + [Slot(NewValue, c, p.columns[c].typeOid)]
    {
      ghost var start, value := tokens, [Parameter(|parameters| + 1)];
      CommaIs(first);
      NoRoom(tokens, Comma(first), value);
      ok := Separate(first, ",");
      if !ok { return; }
      Assoc(start, Comma(first), value);
      ok := WriteValue(p, c);
    }

    method Values(p: Policy, cols: seq<nat>) returns (ok: bool)
      requires Valid() && Columns(p, cols) && parameters == [] && |cols| <= 1024
      modifies `query, `tokens, `parameters
      ensures ok ==> Valid() && tokens == old(tokens) + ValueList(|cols|) && parameters == NewSlots(p, cols)
      ensures !ok ==> !memory || !Room(old(tokens) + ValueList(|cols|))
    {
      ghost var start := tokens;
      assert start + [] == start;
      for i := 0 to |cols|
        invariant Valid() && tokens == start + ValueList(i) && parameters == NewSlots(p, cols[..i])
      {
        SlotsGrow(p, cols, i);
        Assoc(start, ValueList(i), Comma(i == 0) + [Parameter(i + 1)]);
        ok := ListValue(p, cols[i], i == 0);
        if !ok {
          ValuesBelow(i + 1, |cols|);
          RoomBelow(start, ValueList(i + 1), ValueList(|cols|));
          return;
        }
      }
      assert cols[..|cols|] == cols;
      ok := true;
    }

    method SetValue(p: Policy, c: nat, first: bool) returns (ok: bool)
      requires Valid() && c < |p.columns| && |parameters| < MAX_PARAMETERS
      modifies `query, `tokens, `parameters
      ensures ok <==> memory && Room(old(tokens) + SetAt(p, c, first, old(|parameters|) + 1))
      ensures ok ==> Valid() && tokens == old(tokens) + SetAt(p, c, first, old(|parameters|) + 1)
      ensures ok ==> parameters == old(parameters) + [Slot(NewValue, c, p.columns[c].typeOid)]
    {
      ghost var start, value := tokens, [Parameter(|parameters| + 1)];
      ghost var named, all := Comma(first) + [NameAt(p, c)], SetAt(p, c, first, |parameters| + 1);
      assert all == named + ([Text("=")] + value);
      NoRoom(start, named, [Text("=")] + value);
      ok := ListName(p, c, first);
      if !ok { return; }
      assert start + all == tokens + ([Text("=")] + value);
      NoRoom(tokens, [Text("=")], value);
      ok := Append("=");
      if !ok { return; }
      assert start + all == tokens + value;
      ok := WriteValue(p, c);
    }

    /** Writes the i-th assignment behind the earlier ones. */
    method AddSet(p: Policy, cols: seq<nat>, i: nat, ghost start: seq<Token>) returns (ok: bool)
      requires Valid() && Columns(p, cols) && i < |cols| <= 1024 && tokens == start + SetList(p, cols[..i])
      requires |parameters| == i && parameters == NewSlots(p, cols[..i])
      modifies `query, `tokens, `parameters
      ensures ok ==> Valid() && tokens == start + SetList(p, cols[..i + 1]) && parameters == NewSlots(p, cols[..i + 1])
      ensures !ok ==> !memory || !Room(start + SetList(p, cols))
    {
      SetsStep(start, p, cols, i);
      SetsFail(start, p, cols, i + 1);
      ok := SetValue(p, cols[i], i == 0);
    }

    method Sets(p: Policy, cols: seq<nat>) returns (ok: bool)
      requires Valid() && Columns(p, cols) && parameters == [] && |cols| <= 1024
      modifies `query, `tokens, `parameters
      ensures ok ==> Valid() && tokens == old(tokens) + SetList(p, cols) && parameters == NewSlots(p, cols)
      ensures !ok ==> !memory || !Room(old(tokens) + SetList(p, cols))
    {
      ghost var start := tokens;
      assert start + [] == start;
      for i := 0 to |cols|
        invariant Valid() && tokens == start + SetList(p, cols[..i])
        invariant |parameters| == i && parameters == NewSlots(p, cols[..i])
      {
        ok := AddSet(p, cols, i, start);
        if !ok { return; }
      }
      assert cols[..|cols|] == cols;
      ok := true;
    }

    // ----- picking the row

    method SameAs(name: string, number: nat) returns (ok: bool)
      requires Valid()
      modifies `query, `tokens
      ensures ok <==> memory && Room(old(tokens) + Same(Name(name), number))
      ensures ok ==> Valid() && tokens == old(tokens) + Same(Name(name), number)
    {
      ghost var start, test, value := tokens, [Text(" IS NOT DISTINCT FROM ")], [Parameter(number)];
      Assoc([Name(name)], test, value);
      NoRoom(start, [Name(name)], test + value);
      ok := Identifier(name);
      if !ok { return; }
      Assoc(start, [Name(name)], test + value);
      NoRoom(tokens, test, value);
      ok := Append(" IS NOT DISTINCT FROM ");
      if !ok { return; }
      Assoc(start + [Name(name)], test, value);
      ok := Placeholder(number);
    }

    method KeyTest(p: Policy, i: nat, number: nat) returns (ok: bool)
      requires Valid() && PolicyOk(p) && i < |p.keys|
      modifies `query, `tokens
      ensures ok <==> memory && Room(old(tokens) + (And(i == 0) + Same(NameAt(p, p.keys[i]), number)))
      ensures ok ==> Valid() && tokens == old(tokens) + (And(i == 0) + Same(NameAt(p, p.keys[i]), number))
    {
      ghost var start, test := tokens, Same(NameAt(p, p.keys[i]), number);
      NoRoom(tokens, And(i == 0), test);
      ok := Separate(i == 0, " AND ");
      if !ok { return; }
      Assoc(start, And(i == 0), test);
      ok := SameAs(p.columns[p.keys[i]].name, number);
    }

    /** The test of one key column and its parameter. */
    method AddKeyTest(p: Policy, i: nat) returns (ok: bool)
      requires Valid() && PolicyOk(p) && i < |p.keys| && |parameters| < MAX_PARAMETERS
      modifies `query, `tokens, `parameters
      ensures ok <==> memory && Room(old(tokens) + TestAt(p, i, old(|parameters|) + 1))
      ensures ok ==> Valid() && tokens == old(tokens) + TestAt(p, i, old(|parameters|) + 1)
      ensures ok ==> parameters == old(parameters) + [Slot(OldKey, i, p.columns[p.keys[i]].typeOid)]
    {
      ok := KeyTest(p, i, |parameters| + 1);
      if ok { AddParameter(Slot(OldKey, i, p.columns[p.keys[i]].typeOid)); }
    }

    method NextKeyTest(p: Policy, i: nat, base: nat, ghost start: seq<Token>, ghost before: seq<Slot>) returns (ok: bool)
      requires Valid() && PolicyOk(p) && i < |p.keys| && base <= 1024 && |before| == base
      requires tokens == start + DmlSpec.KeyTests(p, i, base) && parameters == before + KeySlots(p, i)
      modifies `query, `tokens, `parameters
      ensures ok <==> memory && Room(start + DmlSpec.KeyTests(p, i + 1, base))
      ensures ok ==> Valid() && tokens == start + DmlSpec.KeyTests(p, i + 1, base)
      ensures ok ==> parameters == before + KeySlots(p, i + 1)
    {
      assert |parameters| == base + i;
      ok := AddKeyTest(p, i);
      TestsGrow(start, before, p, i, base);
    }

    /** One null-safe equality a key column; `base` parameters come before. */
    method KeyTests(p: Policy, base: nat) returns (ok: bool)
      requires Valid() && PolicyOk(p) && |parameters| == base <= 1024
      modifies `query, `tokens, `parameters
      ensures ok ==> Valid() && tokens == old(tokens) + DmlSpec.KeyTests(p, |p.keys|, base)
      ensures ok ==> parameters == old(parameters) + KeySlots(p, |p.keys|)
      ensures !ok ==> !memory || !Room(old(tokens) + DmlSpec.KeyTests(p, |p.keys|, base))
    {
      ghost var start, before := tokens, parameters;
      assert start + [] == start && before + [] == before;
      for i := 0 to |p.keys|
        invariant Valid() && tokens == start + DmlSpec.KeyTests(p, i, base)
        invariant |parameters| == base + i && parameters == before + KeySlots(p, i)
      {
        ok := NextKeyTest(p, i, base, start, before);
        if !ok {
          TestsFail(start, p, i + 1, base);
          return;
        }
      }
      ok := true;
    }

    method XminTest(number: nat) returns (ok: bool)
      requires Valid()
      modifies `query, `tokens
      ensures ok <==> memory && Room(old(tokens) + ([Text(" AND xmin=")] + [Parameter(number)] + [Text("::pg_catalog.xid")]))
      ensures ok ==> Valid() && tokens == old(tokens) + ([Text(" AND xmin=")] + [Parameter(number)] + [Text("::pg_catalog.xid")])
    {
      ghost var start, test, value, cast := tokens, [Text(" AND xmin=")], [Parameter(number)], [Text("::pg_catalog.xid")];
      Assoc(test, value, cast);
      NoRoom(start, test, value + cast);
      ok := Append(" AND xmin=");
      if !ok { return; }
      Assoc(start, test, value + cast);
      NoRoom(tokens, value, cast);
      ok := Placeholder(number);
      if !ok { return; }
      Assoc(start + test, value, cast);
      ok := Append("::pg_catalog.xid");
    }

    method ColumnTest(name: string, number: nat) returns (ok: bool)
      requires Valid()
      modifies `query, `tokens
      ensures ok <==> memory && Room(old(tokens) + ([Text(" AND ")] + Same(Name(name), number)))
      ensures ok ==> Valid() && tokens == old(tokens) + ([Text(" AND ")] + Same(Name(name), number))
    {
      ghost var start := tokens;
      NoRoom(start, [Text(" AND ")], Same(Name(name), number));
      ok := Append(" AND ");
      if !ok { return; }
      Assoc(start, [Text(" AND ")], Same(Name(name), number));
      ok := SameAs(name, number);
    }

    method VersionTest(p: Policy, optimistic: Option<nat>) returns (ok: bool)
      requires Valid() && PolicyOk(p) && |parameters| < MAX_PARAMETERS
      modifies `query, `tokens, `parameters
      ensures ok ==> Valid() && OptimisticFits(p, optimistic)
      ensures ok ==> tokens == old(tokens) + DmlSpec.VersionTest(p, old(|parameters|) + 1)
      ensures ok ==> parameters == old(parameters) + VersionSlots(p)
      ensures !ok ==> !memory || !OptimisticFits(p, optimistic)
                      || !Room(old(tokens) + DmlSpec.VersionTest(p, old(|parameters|) + 1))
    {
      assert tokens + [] == tokens && parameters + [] == parameters;
      if p.mode.Off? { return true; }
      if !optimistic.Some? { return false; }
      var typeOid;
      if p.mode.Xmin? {
        typeOid := XMIN_OID;
        ok := XminTest(|parameters| + 1);
      } else {
        typeOid := p.columns[p.mode.column].typeOid;
        ok := ColumnTest(p.columns[p.mode.column].name, |parameters| + 1);
      }
      if !ok { return; }
      if optimistic.value != typeOid { return false; }
      AddParameter(Slot(OldOptimistic, 0, typeOid));
    }

    /** The condition on the key columns, then the one on the version. */
    method Conditions(p: Policy, optimistic: Option<nat>) returns (ok: bool)
      requires Valid() && PolicyOk(p) && |parameters| <= 1024
      modifies `query, `tokens, `parameters
      ensures ok ==> Valid() && OptimisticFits(p, optimistic) && tokens == old(tokens) + Picked(p, Update, old(|parameters|))
      ensures ok ==> parameters == old(parameters) + KeySlots(p, |p.keys|) + VersionSlots(p)
      ensures !ok ==> !memory || !OptimisticFits(p, optimistic)
                      || !Room(old(tokens) + Picked(p, Update, old(|parameters|)))
    {
      ghost var start, base := tokens, |parameters|;
      ghost var keyed, versioned := DmlSpec.KeyTests(p, |p.keys|, base), DmlSpec.VersionTest(p, base + |p.keys| + 1);
      assert Picked(p, Update, base) == keyed + versioned;
      NoRoom(start, keyed, versioned);
      ok := KeyTests(p, |parameters|);
      if !ok { return; }
      assert |parameters| + 1 == base + |p.keys| + 1;
      ghost var number := |parameters| + 1;
      assert versioned == DmlSpec.VersionTest(p, number);
      Assoc(start, keyed, versioned);
      ok := VersionTest(p, optimistic);
      if ok { assert tokens == start + keyed + versioned; }
    }

    /** The condition that picks the row a caller read. */
    method OriginalPredicate(p: Policy, id: Option<Identity>) returns (ok: bool)
      requires Valid() && PolicyOk(p) && |parameters| <= 1024
      modifies `query, `tokens, `parameters
      ensures ok ==> Valid() && IdentityFits(p, id) && tokens == old(tokens) + Picked(p, Update, old(|parameters|))
      ensures ok ==> parameters == old(parameters) + KeySlots(p, |p.keys|) + VersionSlots(p)
      ensures !ok ==> !memory || !IdentityFits(p, id) || !Room(old(tokens) + Picked(p, Update, old(|parameters|)))
    {
      if !id.Some? || id.value.relationOid != p.relationOid || |id.value.keyTypes| != |p.keys| { return false; }
      ok := CheckTypes(p, id.value.keyTypes);
      if !ok { return; }
      ok := Conditions(p, id.value.optimistic);
    }

    // ----- what comes back

    method VersionReturn(p: Policy) returns (ok: bool)
      requires Valid() && PolicyOk(p)
      modifies `query, `tokens, `returning
      ensures ok <==> p.mode.Off? || (memory && Room(old(tokens) + DmlSpec.VersionReturn(p)))
      ensures ok ==> Valid() && tokens == old(tokens) + DmlSpec.VersionReturn(p)
      ensures ok ==> returning == old(returning) + VersionColumns(p)
    {
      assert tokens + [] == tokens && returning + [] == returning;
      if p.mode.Off? { return true; }
      if p.mode.Xmin? {
        ok := Append(",xmin::pg_catalog.text");
        if ok { returning := returning + [SYSTEM_COLUMN]; }
      } else {
        assert DmlSpec.VersionReturn(p) == Comma(false) + [NameAt(p, p.mode.column)];
        ok := ListName(p, p.mode.column, false);
        if ok { returning := returning + [p.mode.column]; }
      }
    }

    method Returning(p: Policy) returns (ok: bool)
      requires Valid() && PolicyOk(p) && returning == []
      modifies `query, `tokens, `returning
      ensures ok ==> memory && Valid() && tokens == old(tokens) + DmlSpec.Returning(p) && returning == p.keys + VersionColumns(p)
      ensures !ok ==> !memory || !Room(old(tokens) + DmlSpec.Returning(p))
    {
      ghost var start, word, names, last := tokens, [Text(" RETURNING ")], NameList(p, p.keys), DmlSpec.VersionReturn(p);
      NoRoom(start, word, names + last);
      ok := Append(" RETURNING ");
      if !ok { return; }
      Assoc(start, word, names + last);
      NoRoom(tokens, names, last);
      ok := Names(p, p.keys);
      if !ok { return; }
      returning := p.keys;
      Assoc(start + word, names, last);
      ok := VersionReturn(p);
    }

    // ----- the statement

    method InsertLists(p: Policy, cols: seq<nat>) returns (ok: bool)
      requires Valid() && Columns(p, cols) && parameters == [] && |cols| <= 1024
      modifies `query, `tokens, `parameters
      ensures ok ==> Valid() && tokens == old(tokens) + Lists(p, cols) && parameters == NewSlots(p, cols)
      ensures !ok ==> !memory || !Room(old(tokens) + Lists(p, cols))
    {
      ghost var start, names, values := tokens, NameList(p, cols), ValueList(|cols|);
      ghost var open, middle, close := [Text(" (")], [Text(") VALUES (")], [Text(")")];
      NoRoom(start, open, names + (middle + (values + close)));
      ok := Append(" (");
      if !ok { return; }
      Assoc(start, open, names + (middle + (values + close)));
      NoRoom(tokens, names, middle + (values + close));
      ok := Names(p, cols);
      if !ok { return; }
      Assoc(start + open, names, middle + (values + close));
      NoRoom(tokens, middle, values + close);
      ok := Append(") VALUES (");
      if !ok { return; }
      ok := CloseValues(p, cols, start + open + names, middle);
    }

    method CloseValues(p: Policy, cols: seq<nat>, ghost start: seq<Token>, ghost middle: seq<Token>) returns (ok: bool)
      requires Valid() && Columns(p, cols) && parameters == [] && |cols| <= 1024 && tokens == start + middle
      modifies `query, `tokens, `parameters
      ensures ok ==> Valid() && tokens == start + (middle + (ValueList(|cols|) + [Text(")")])) && parameters == NewSlots(p, cols)
      ensures !ok ==> !memory || !Room(start + (middle + (ValueList(|cols|) + [Text(")")])))
    {
      ghost var values, close := ValueList(|cols|), [Text(")")];
      Assoc(start, middle, values + close);
      NoRoom(tokens, values, close);
      ok := Values(p, cols);
      if !ok { return; }
      Assoc(start + middle, values, close);
      ok := Append(")");
    }

    method WriteInsert(p: Policy, cols: seq<nat>) returns (ok: bool)
      requires Valid() && Columns(p, cols) && parameters == [] && |cols| <= 1024
      modifies `query, `tokens, `parameters
      ensures ok ==> Valid() && tokens == old(tokens) + Written(p, Insert, cols) && parameters == NewSlots(p, cols)
      ensures !ok ==> !memory || !Room(old(tokens) + Written(p, Insert, cols))
    {
      ghost var rest := if cols == [] then [Text(" DEFAULT VALUES")] else Lists(p, cols);
      ghost var start, verb, target := tokens, [Text("INSERT INTO ")], DmlSpec.Target(p);
      NoRoom(start, verb, target + rest);
      ok := Append("INSERT INTO ");
      if !ok { return; }
      Assoc(start, verb, target + rest);
      NoRoom(tokens, target, rest);
      ok := Target(p);
      if !ok { return; }
      Assoc(start + verb, target, rest);
      if cols == [] {
        ok := Append(" DEFAULT VALUES");
      } else {
        ok := InsertLists(p, cols);
      }
    }

    method WriteUpdate(p: Policy, cols: seq<nat>) returns (ok: bool)
      requires Valid() && Columns(p, cols) && parameters == [] && |cols| <= 1024
      modifies `query, `tokens, `parameters
      ensures ok ==> Valid() && tokens == old(tokens) + Written(p, Update, cols) && parameters == NewSlots(p, cols)
      ensures !ok ==> !memory || !Room(old(tokens) + Written(p, Update, cols))
    {
      ghost var start, verb, target, set_ := tokens, [Text("UPDATE ")], DmlSpec.Target(p), [Text(" SET ")];
      ghost var sets, where_ := SetList(p, cols), [Text(" WHERE ")];
      NoRoom(start, verb, target + (set_ + (sets + where_)));
      ok := Append("UPDATE ");
      if !ok { return; }
      Assoc(start, verb, target + (set_ + (sets + where_)));
      NoRoom(tokens, target, set_ + (sets + where_));
      ok := Target(p);
      if !ok { return; }
      Assoc(start + verb, target, set_ + (sets + where_));
      NoRoom(tokens, set_, sets + where_);
      ok := Append(" SET ");
      if !ok { return; }
      Assoc(start + verb + target, set_, sets + where_);
      NoRoom(tokens, sets, where_);
      ok := Sets(p, cols);
      if !ok { return; }
      Assoc(start + verb + target + set_, sets, where_);
      ok := Append(" WHERE ");
    }

    method WriteDelete(p: Policy) returns (ok: bool)
      requires Valid()
      modifies `query, `tokens
      ensures ok ==> Valid() && tokens == old(tokens) + Written(p, Delete, [])
      ensures !ok ==> !memory || !Room(old(tokens) + Written(p, Delete, []))
    {
      ghost var start, verb, target, where_ := tokens, [Text("DELETE FROM ")], DmlSpec.Target(p), [Text(" WHERE ")];
      NoRoom(start, verb, target + where_);
      ok := Append("DELETE FROM ");
      if !ok { return; }
      Assoc(start, verb, target + where_);
      NoRoom(tokens, target, where_);
      ok := Target(p);
      if !ok { return; }
      Assoc(start + verb, target, where_);
      ok := Append(" WHERE ");
    }

    method WriteStart(p: Policy, op: Operation, cols: seq<nat>) returns (ok: bool)
      requires Valid() && tokens == [] && Columns(p, cols) && parameters == [] && |cols| <= 1024 && (op.Delete? ==> cols == [])
      modifies `query, `tokens, `parameters
      ensures ok ==> Valid() && tokens == Written(p, op, cols) && parameters == NewSlots(p, cols)
      ensures !ok ==> !memory || !Room(Written(p, op, cols))
    {
      assert [] + Written(p, op, cols) == Written(p, op, cols);
      if op.Insert? {
        ok := WriteInsert(p, cols);
      } else if op.Update? {
        ok := WriteUpdate(p, cols);
      } else {
        ok := WriteDelete(p);
      }
    }

    method Reset()
      modifies `query, `tokens, `parameters, `returning
      ensures Valid() && query == "" && tokens == [] && parameters == [] && returning == []
    {
      query, tokens, parameters, returning := "", [], [], [];
    }

    /** The text of a whole statement. */
    method Emit(p: Policy, op: Operation, cols: seq<nat>, id: Option<Identity>) returns (status: Status)
      requires Valid() && tokens == [] && parameters == [] && returning == []
      requires PolicyOk(p) && Columns(p, cols) && |cols| <= 1024 && (op.Delete? ==> cols == [])
      modifies `query, `tokens, `parameters, `returning
      ensures status.Ok? ==> memory && Valid() && tokens == Statement(p, op, cols) && parameters == Slots(p, op, cols)
      ensures status.Ok? ==> returning == p.keys + VersionColumns(p) && (!op.Insert? ==> IdentityFits(p, id))
      ensures !status.Ok? ==> !memory || !Room(Statement(p, op, cols)) || (!op.Insert? && !IdentityFits(p, id))
      ensures status.Ok? || status.OutOfMemory? || status.MalformedIdentity?
      ensures memory && Room(Statement(p, op, cols)) ==> !status.OutOfMemory?
    {
      ghost var written, rest := Written(p, op, cols), Picked(p, op, |cols|) + DmlSpec.Returning(p);
      NoRoom([], written, rest);
      assert [] + written == written && [] + (written + rest) == written + rest;
      var ok := WriteStart(p, op, cols);
      if !ok { return OutOfMemory; }
      status := EmitEnd(p, op, cols, id, written);
    }

    /** The condition and what is returned. */
    method EmitEnd(p: Policy, op: Operation, cols: seq<nat>, id: Option<Identity>, ghost written: seq<Token>) returns (status: Status)
      requires Valid() && tokens == written && returning == []
      requires PolicyOk(p) && Columns(p, cols) && |cols| <= 1024 && (op.Delete? ==> cols == []) && parameters == NewSlots(p, cols)
      modifies `query, `tokens, `parameters, `returning
      ensures status.Ok? ==> memory && Valid() && parameters == Slots(p, op, cols)
      ensures status.Ok? ==> tokens == written + (Picked(p, op, |cols|) + DmlSpec.Returning(p))
      ensures status.Ok? ==> returning == p.keys + VersionColumns(p) && (!op.Insert? ==> IdentityFits(p, id))
      ensures !status.Ok? ==>
        || !memory || !Room(written + (Picked(p, op, |cols|) + DmlSpec.Returning(p)))
        || (!op.Insert? && !IdentityFits(p, id))
      ensures status.Ok? || status.OutOfMemory? || status.MalformedIdentity?
      ensures memory && Room(written + (Picked(p, op, |cols|) + DmlSpec.Returning(p))) ==> !status.OutOfMemory?
    {
      ghost var picked, returned := Picked(p, op, |cols|), DmlSpec.Returning(p);
      NoRoom(written, picked, returned);
      var ok := PickRow(p, op, id);
      if !ok { return MalformedIdentity; }
      SlotsAre(p, op, cols);
      Assoc(written, picked, returned);
      ok := Returning(p);
      status := if ok then Ok else OutOfMemory;
    }

    /** The condition of an UPDATE or DELETE; an INSERT has none. */
    method PickRow(p: Policy, op: Operation, id: Option<Identity>) returns (ok: bool)
      requires Valid() && PolicyOk(p) && |parameters| <= 1024
      modifies `query, `tokens, `parameters
      ensures ok ==> Valid() && tokens == old(tokens) + Picked(p, op, old(|parameters|)) && (!op.Insert? ==> IdentityFits(p, id))
      ensures ok ==> parameters == old(parameters) + if op.Insert? then [] else KeySlots(p, |p.keys|) + VersionSlots(p)
      ensures !ok ==> !op.Insert?
      ensures !ok ==> !memory || !IdentityFits(p, id) || !Room(old(tokens) + Picked(p, op, old(|parameters|)))
    {
      if op.Insert? {
        assert tokens + [] == tokens && parameters + [] == parameters;
        return true;
      }
      ghost var before := parameters;
      ok := OriginalPredicate(p, id);
      if ok { Assoc(before, KeySlots(p, |p.keys|), VersionSlots(p)); }
    }

    /** Builds the plan for a write, or leaves an empty one. */
    method Build(p: Policy, op: Operation, included: seq<bool>, id: Option<Identity>) returns (status: Status)
      requires Valid() && tokens == [] && parameters == [] && returning == [] && PolicyOk(p)
      modifies this
      ensures op.Delete? || |included| == |p.columns| || status.InvalidArgument?
      ensures status.Ok? ==> op.Delete? || |included| == |p.columns|
      ensures (op.Delete? || |included| == |p.columns|) ==>
        var cols := if op.Delete? then [] else Chosen(included);
        && (status.Ok? <==> memory && Plannable(p, op, cols, id))
        && (status.Ok? ==> query == Render(Statement(p, op, cols)) && parameters == Slots(p, op, cols)
                           && returning == p.keys + VersionColumns(p))
      ensures !status.Ok? ==> query == "" && parameters == [] && returning == []
      // with memory and a text that fits, which fault is reported
      ensures memory && (op.Delete? || |included| == |p.columns| ==> Fitting(p, op, Named(op, included))) ==>
        status == Refusal(p, op, included, id)
    {
      if !p.writable || (!op.Delete? && |included| != |p.columns|) { return InvalidArgument; }
      if op.Delete? {
        status := BuildFor(p, op, [], id);
        return;
      }
      var cols;
      status, cols := Choose(p, op, included);
      ChosenShort(included);
      if status.Ok? { status := BuildFor(p, op, cols, id); }
    }

    method BuildFor(p: Policy, op: Operation, cols: seq<nat>, id: Option<Identity>) returns (status: Status)
      requires Valid() && tokens == [] && parameters == [] && returning == []
      requires PolicyOk(p) && Columns(p, cols) && |cols| <= 1024 && (op.Delete? ==> cols == [])
      requires p.writable && ColumnsWritable(p, op, cols)
      modifies `query, `tokens, `parameters, `returning
      ensures status.Ok? <==> memory && Plannable(p, op, cols, id)
      ensures status.Ok? ==> query == Render(Statement(p, op, cols)) && parameters == Slots(p, op, cols)
      ensures status.Ok? ==> returning == p.keys + VersionColumns(p)
      ensures !status.Ok? ==> query == "" && parameters == [] && returning == []
      ensures memory && Fitting(p, op, cols) ==> status == if op.Insert? || IdentityFits(p, id) then Ok else MalformedIdentity
    {
      ghost var statement := Statement(p, op, cols);
      assert Plannable(p, op, cols, id) <==>
             Room(statement) && |Render(statement)| < QUERY_LIMIT && (!op.Insert? ==> IdentityFits(p, id));
      status := Emit(p, op, cols, id);
      if status.Ok? && |query| >= QUERY_LIMIT { status := OutOfMemory; }
      if !status.Ok? { Reset(); }
    }
  }

  lemma SlotsAre(p: Policy, op: Operation, cols: seq<nat>)
    requires PolicyOk(p) && Columns(p, cols) && (op.Delete? ==> cols == [])
    ensures Slots(p, op, cols) == NewSlots(p, cols) + if op.Insert? then [] else KeySlots(p, |p.keys|) + VersionSlots(p)
  {
    assert NewSlots(p, cols) + [] == NewSlots(p, cols);
    Assoc(NewSlots(p, cols), KeySlots(p, |p.keys|), VersionSlots(p));
    if op.Delete? { assert NewSlots(p, cols) == []; }
  }

  ghost function Lists(p: Policy, cols: seq<nat>): seq<Token>
    requires Columns(p, cols)
  {
    [Text(" (")] + (NameList(p, cols) + ([Text(") VALUES (")] + (ValueList(|cols|) + [Text(")")])))
  }

  lemma {:induction false} ChosenShort(included: seq<bool>)
    ensures |Chosen(included)| <= |included|
  {
    if included != [] { ChosenShort(included[..|included| - 1]); }
  }

  lemma ChosenNext(included: seq<bool>, v: nat)
    requires v < |included|
    ensures Chosen(included[..v + 1]) == Chosen(included[..v]) + if included[v] then [v] else []
  {
    assert included[..v + 1][..v] == included[..v];
  }

  // ----- which fault is reported

  /** The verdict on the first `n` columns: the first one named that may not be written. */
  function ColumnVerdict(p: Policy, op: Operation, included: seq<bool>, n: nat): Status
    requires n <= |included| == |p.columns|
  {
    if n == 0 then Ok
    else
      var before := ColumnVerdict(p, op, included, n - 1);
      if !before.Ok? || !included[n - 1] || Writable(p.columns[n - 1], op) then before
      else if p.columns[n - 1].generated then GeneratedColumn else IdentityAlways
  }

  lemma {:induction false} VerdictStays(p: Policy, op: Operation, included: seq<bool>, n: nat)
    requires n <= |included| == |p.columns| && !ColumnVerdict(p, op, included, n).Ok?
    ensures ColumnVerdict(p, op, included, |included|) == ColumnVerdict(p, op, included, n)
    decreases |included| - n
  {
    if n < |included| { VerdictStays(p, op, included, n + 1); }
  }

  function ChoiceVerdict(p: Policy, op: Operation, included: seq<bool>): Status
    requires |included| == |p.columns|
  {
    var verdict := ColumnVerdict(p, op, included, |included|);
    if verdict.Ok? && op.Update? && Chosen(included) == [] then InvalidArgument else verdict
  }

  function Named(op: Operation, included: seq<bool>): seq<nat> { if op.Delete? then [] else Chosen(included) }

  /** The names are usable and the text fits with its end mark. */
  ghost predicate Fitting(p: Policy, op: Operation, cols: seq<nat>)
    requires PolicyOk(p) && Columns(p, cols)
  {
    NamesOk(Statement(p, op, cols)) && |Render(Statement(p, op, cols))| < QUERY_LIMIT
  }

  /** Arguments first, then the columns from left to right, then the identity. */
  function Refusal(p: Policy, op: Operation, included: seq<bool>, id: Option<Identity>): Status
    requires PolicyOk(p)
  {
    if !p.writable || (!op.Delete? && |included| != |p.columns|) then InvalidArgument
    else if !op.Delete? && !ChoiceVerdict(p, op, included).Ok? then ChoiceVerdict(p, op, included)
    else if !op.Insert? && !IdentityFits(p, id) then MalformedIdentity
    else Ok
  }

  /** Collects the columns a write names and refuses one that may not be written. */
  method Choose(p: Policy, op: Operation, included: seq<bool>) returns (status: Status, cols: seq<nat>)
    requires |included| == |p.columns| && !op.Delete?
    ensures status.Ok? <==> ColumnsWritable(p, op, Chosen(included))
    ensures status.Ok? ==> cols == Chosen(included)
    ensures status == ChoiceVerdict(p, op, included)
    ensures status.Ok? || status.GeneratedColumn? || status.IdentityAlways? || (status.InvalidArgument? && op.Update?)
  {
    cols := [];
    for v := 0 to |included|
      invariant cols == Chosen(included[..v])
      invariant forall i :: 0 <= i < |cols| ==> cols[i] < v && Writable(p.columns[cols[i]], op)
      invariant ColumnVerdict(p, op, included, v).Ok?
    {
      ChosenNext(included, v);
      if included[v] {
        if !Writable(p.columns[v], op) {
          NotWritable(p, op, included, v);
          VerdictStays(p, op, included, v + 1);
          return if p.columns[v].generated then GeneratedColumn else IdentityAlways, [];
        }
        cols := cols + [v];
      }
    }
    assert included[..|included|] == included;
    AllWritable(p, op, cols);
    status := if op.Update? && cols == [] then InvalidArgument else Ok;
  }

  lemma NotWritable(p: Policy, op: Operation, included: seq<bool>, v: nat)
    requires |included| == |p.columns| && !op.Delete? && v < |included| && included[v] && !Writable(p.columns[v], op)
    ensures !ColumnsWritable(p, op, Chosen(included))
  {
    assert v in Chosen(included);
  }

  lemma AllWritable(p: Policy, op: Operation, cols: seq<nat>)
    requires Columns(p, cols) && !op.Delete? && forall i :: 0 <= i < |cols| ==> Writable(p.columns[cols[i]], op)
    ensures ColumnsWritable(p, op, cols) <==> !(op.Update? && cols == [])
  {
  }

  predicate Writable(c: Column, op: Operation) {
    if op.Insert? then c.insertable else c.updatable
  }

  function VersionColumns(p: Policy): seq<nat> {
    match p.mode
    case Off => []
    case Xmin => [SYSTEM_COLUMN]
    case Version(v) => [v]
  }

  method CheckTypes(p: Policy, types: seq<nat>) returns (ok: bool)
    requires PolicyOk(p) && |types| == |p.keys|
    ensures ok <==> TypesFit(p, types, |p.keys|)
  {
    for i := 0 to |p.keys|
      invariant TypesFit(p, types, i)
    {
      if types[i] != p.columns[p.keys[i]].typeOid { return false; }
    }
    ok := true;
  }

  ghost function TestAt(p: Policy, i: nat, number: nat): seq<Token>
    requires PolicyOk(p) && i < |p.keys|
  {
    And(i == 0) + Same(NameAt(p, p.keys[i]), number)
  }

  lemma TestsGrow(start: seq<Token>, before: seq<Slot>, p: Policy, i: nat, base: nat)
    requires PolicyOk(p) && i < |p.keys|
    ensures start + DmlSpec.KeyTests(p, i + 1, base) == start + DmlSpec.KeyTests(p, i, base) + TestAt(p, i, base + i + 1)
    ensures before + KeySlots(p, i + 1) == before + KeySlots(p, i) + [Slot(OldKey, i, p.columns[p.keys[i]].typeOid)]
  {
    Assoc(start, DmlSpec.KeyTests(p, i, base), TestAt(p, i, base + i + 1));
    assert KeySlots(p, i + 1) == KeySlots(p, i) + [Slot(OldKey, i, p.columns[p.keys[i]].typeOid)];
  }

  ghost predicate TypesFit(p: Policy, types: seq<nat>, n: nat)
    requires PolicyOk(p) && n <= |p.keys| && |types| == |p.keys|
  {
    forall i :: 0 <= i < n ==> types[i] == p.columns[p.keys[i]].typeOid
  }

  ghost predicate OptimisticFits(p: Policy, optimistic: Option<nat>)
    requires PolicyOk(p)
  {
    p.mode.Off? || (optimistic.Some? && optimistic.value == VersionSlots(p)[0].typeOid)
  }

  lemma NoRoom(t: seq<Token>, a: seq<Token>, b: seq<Token>)
    ensures Room(t + (a + b)) ==> Room(t + a)
  {
    Assoc(t, a, b);
    if Room(t + (a + b)) { RoomPrefix(t + a, b); }
  }

  lemma CommaIs(first: bool)
    ensures Comma(first) == if first then [] else [Text(",")]
  {
  }

  lemma NamesGrow(p: Policy, cols: seq<nat>, i: nat)
    requires Columns(p, cols) && i < |cols|
    ensures NameList(p, cols[..i + 1]) == NameList(p, cols[..i]) + (Comma(i == 0) + [NameAt(p, cols[i])])
  {
    assert cols[..i + 1][..i] == cols[..i];
  }

  lemma RoomBelow(start: seq<Token>, a: seq<Token>, b: seq<Token>)
    requires a <= b
    ensures Room(start + b) ==> Room(start + a)
  {
    NoRoom(start, a, b[|a|..]);
    assert b == a + b[|a|..];
  }

  lemma {:induction false} NamesBelow(p: Policy, cols: seq<nat>, i: nat)
    requires Columns(p, cols) && i <= |cols|
    ensures NameList(p, cols[..i]) <= NameList(p, cols)
    decreases |cols| - i
  {
    if i < |cols| {
      NamesBelow(p, cols, i + 1);
      NamesGrow(p, cols, i);
    } else {
      assert cols[..i] == cols;
    }
  }

  lemma {:induction false} ValuesBelow(i: nat, n: nat)
    requires i <= n
    ensures ValueList(i) <= ValueList(n)
  {
    if i < n { ValuesBelow(i, n - 1); }
  }

  ghost function SetAt(p: Policy, c: nat, first: bool, number: nat): seq<Token>
    requires c < |p.columns|
  {
    Comma(first) + [NameAt(p, c), Text("="), Parameter(number)]
  }

  lemma SetsGrow(p: Policy, cols: seq<nat>, i: nat)
    requires Columns(p, cols) && i < |cols|
    ensures SetList(p, cols[..i + 1]) == SetList(p, cols[..i]) + SetAt(p, cols[i], i == 0, i + 1)
  {
    assert cols[..i + 1][..i] == cols[..i];
  }

  lemma SetsStep(start: seq<Token>, p: Policy, cols: seq<nat>, i: nat)
    requires Columns(p, cols) && i < |cols|
    ensures start + SetList(p, cols[..i + 1]) == start + SetList(p, cols[..i]) + SetAt(p, cols[i], i == 0, i + 1)
    ensures NewSlots(p, cols[..i + 1]) == NewSlots(p, cols[..i]) + [Slot(NewValue, cols[i], p.columns[cols[i]].typeOid)]
  {
    SetsGrow(p, cols, i);
    SlotsGrow(p, cols, i);
    Assoc(start, SetList(p, cols[..i]), SetAt(p, cols[i], i == 0, i + 1));
  }

  lemma {:induction false} SetsBelow(p: Policy, cols: seq<nat>, i: nat)
    requires Columns(p, cols) && i <= |cols|
    ensures SetList(p, cols[..i]) <= SetList(p, cols)
    decreases |cols| - i
  {
    if i < |cols| {
      SetsBelow(p, cols, i + 1);
      SetsGrow(p, cols, i);
    } else {
      assert cols[..i] == cols;
    }
  }

  lemma SetsFail(start: seq<Token>, p: Policy, cols: seq<nat>, i: nat)
    requires Columns(p, cols) && i <= |cols|
    ensures Room(start + SetList(p, cols)) ==> Room(start + SetList(p, cols[..i]))
  {
    SetsBelow(p, cols, i);
    RoomBelow(start, SetList(p, cols[..i]), SetList(p, cols));
  }

  lemma TestsFail(start: seq<Token>, p: Policy, i: nat, base: nat)
    requires PolicyOk(p) && i <= |p.keys|
    ensures Room(start + DmlSpec.KeyTests(p, |p.keys|, base)) ==> Room(start + DmlSpec.KeyTests(p, i, base))
  {
    TestsBelow(p, i, |p.keys|, base);
    RoomBelow(start, DmlSpec.KeyTests(p, i, base), DmlSpec.KeyTests(p, |p.keys|, base));
  }

  lemma {:induction false} TestsBelow(p: Policy, i: nat, n: nat, base: nat)
    requires PolicyOk(p) && i <= n <= |p.keys|
    ensures KeyTests(p, i, base) <= KeyTests(p, n, base)
  {
    if i < n { TestsBelow(p, i, n - 1, base); }
  }

  lemma SlotsGrow(p: Policy, cols: seq<nat>, i: nat)
    requires Columns(p, cols) && i < |cols|
    ensures NewSlots(p, cols[..i + 1]) == NewSlots(p, cols[..i]) + [Slot(NewValue, cols[i], p.columns[cols[i]].typeOid)]
  {
    assert cols[..i + 1] == cols[..i] + [cols[i]];
  }
}
