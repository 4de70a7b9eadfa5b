/** The statements a write is turned into: their text as tokens, their parameter slots, and what
    they do to a table. Spatial columns are not part of this model. */
module DmlSpec {
  import opened Options
  import opened SqlText

  datatype Operation = Insert | Update | Delete

  datatype Column = Column(name: string, typeOid: nat, insertable: bool, updatable: bool, generated: bool)

  datatype Mode = Off | Version(column: nat) | Xmin

  datatype Policy = Policy(
    writable: bool, relationOid: nat, schema: string, relation: string, columns: seq<Column>, keys: seq<nat>, mode: Mode)

  /** What building the policy established. */
  predicate PolicyOk(p: Policy) {
    && |p.columns| <= 1024 && 0 < |p.keys| <= 32
    && (forall i :: 0 <= i < |p.keys| ==> p.keys[i] < |p.columns|)
    && (p.mode.Version? ==> p.mode.column < |p.columns|)
  }

  datatype Identity = Identity(relationOid: nat, keyTypes: seq<nat>, optimistic: Option<nat>)

  datatype Source = NewValue | OldKey | OldOptimistic
  datatype Slot = Slot(source: Source, index: nat, typeOid: nat)

  const XMIN_OID := 28

  // ----- the columns a write names

  function Chosen(included: seq<bool>): (r: seq<nat>)
    ensures forall i :: 0 <= i < |r| ==> r[i] < |included| && included[r[i]]
    ensures forall i, j :: 0 <= i < j < |r| ==> r[i] < r[j]
    ensures forall v :: 0 <= v < |included| && included[v] ==> v in r
  {
    if included == [] then []
    else
      var n := |included| - 1;
      Chosen(included[..n]) + if included[n] then [n] else []
  }

  ghost predicate Columns(p: Policy, cols: seq<nat>) {
    forall i :: 0 <= i < |cols| ==> cols[i] < |p.columns|
  }

  // ----- text

  function Target(p: Policy): seq<Token> {
    [Name(p.schema), Text("."), Name(p.relation)]
  }

  function Comma(first: bool): seq<Token> { if first then [] else [Text(",")] }

  function NameAt(p: Policy, c: nat): Token
    requires c < |p.columns|
  {
    Name(p.columns[c].name)
  }

  ghost function NameList(p: Policy, cols: seq<nat>): seq<Token>
    requires Columns(p, cols)
  {
    if cols == [] then []
    else
      var n := |cols| - 1;
      NameList(p, cols[..n]) + (Comma(n == 0) + [NameAt(p, cols[n])])
  }

  ghost function ValueList(n: nat): seq<Token> {
    if n == 0 then [] else ValueList(n - 1) + (Comma(n == 1) + [Parameter(n)])
  }

  ghost function SetList(p: Policy, cols: seq<nat>): seq<Token>
    requires Columns(p, cols)
  {
    if cols == [] then []
    else
      var n := |cols| - 1;
      SetList(p, cols[..n]) + (Comma(n == 0) + [NameAt(p, cols[n]), Text("="), Parameter(n + 1)])
  }

  function And(first: bool): seq<Token> { if first then [] else [Text(" AND ")] }

  function Same(name: Token, number: nat): seq<Token> {
    [name] + [Text(" IS NOT DISTINCT FROM ")] + [Parameter(number)]
  }

  ghost function KeyTests(p: Policy, n: nat, base: nat): seq<Token>
    requires PolicyOk(p) && n <= |p.keys|
  {
    if n == 0 then []
    else KeyTests(p, n - 1, base) + (And(n == 1) + Same(NameAt(p, p.keys[n - 1]), base + n))
  }

  function VersionTest(p: Policy, number: nat): seq<Token>
    requires PolicyOk(p)
  {
    match p.mode
    case Off => []
    case Xmin => [Text(" AND xmin=")] + [Parameter(number)] + [Text("::pg_catalog.xid")]
    case Version(v) => [Text(" AND ")] + Same(NameAt(p, v), number)
  }

  function VersionReturn(p: Policy): seq<Token>
    requires PolicyOk(p)
  {
    match p.mode
    case Off => []
    case Xmin => [Text(",xmin::pg_catalog.text")]
    case Version(v) => [Text(","), NameAt(p, v)]
  }

  ghost function Returning(p: Policy): seq<Token>
    requires PolicyOk(p)
  {
    [Text(" RETURNING ")] + (NameList(p, p.keys) + VersionReturn(p))
  }

  /** The part that names new values. */
  ghost function Written(p: Policy, op: Operation, cols: seq<nat>): seq<Token>
    requires Columns(p, cols)
  {
    match op
    case Insert =>
      [Text("INSERT INTO ")] + (Target(p) +
        if cols == [] then [Text(" DEFAULT VALUES")]
        else [Text(" (")] + (NameList(p, cols) + ([Text(") VALUES (")] + (ValueList(|cols|) + [Text(")")]))))
    case Update => [Text("UPDATE ")] + (Target(p) + ([Text(" SET ")] + (SetList(p, cols) + [Text(" WHERE ")])))
    case Delete => [Text("DELETE FROM ")] + (Target(p) + [Text(" WHERE ")])
  }

  /** The part that picks the row. */
  ghost function Picked(p: Policy, op: Operation, base: nat): seq<Token>
    requires PolicyOk(p)
  {
    if op.Insert? then [] else KeyTests(p, |p.keys|, base) + VersionTest(p, base + |p.keys| + 1)
  }

  ghost function Statement(p: Policy, op: Operation, cols: seq<nat>): seq<Token>
    requires PolicyOk(p) && Columns(p, cols)
  {
    Written(p, op, cols) + (Picked(p, op, |cols|) + Returning(p))
  }

  // ----- slots

  function NewSlots(p: Policy, cols: seq<nat>): (r: seq<Slot>)
    requires forall i :: 0 <= i < |cols| ==> cols[i] < |p.columns|
    ensures |r| == |cols|
    ensures forall i :: 0 <= i < |cols| ==> r[i] == Slot(NewValue, cols[i], p.columns[cols[i]].typeOid)
  {
    seq(|cols|, i requires 0 <= i < |cols| => Slot(NewValue, cols[i], p.columns[cols[i]].typeOid))
  }

  function KeySlots(p: Policy, n: nat): (r: seq<Slot>)
    requires PolicyOk(p) && n <= |p.keys|
    ensures |r| == n && forall i :: 0 <= i < n ==> r[i] == Slot(OldKey, i, p.columns[p.keys[i]].typeOid)
  {
    seq(n, i requires 0 <= i < n => Slot(OldKey, i, p.columns[p.keys[i]].typeOid))
  }

  function VersionSlots(p: Policy): seq<Slot>
    requires PolicyOk(p)
  {
    match p.mode
    case Off => []
    case Xmin => [Slot(OldOptimistic, 0, XMIN_OID)]
    case Version(v) => [Slot(OldOptimistic, 0, p.columns[v].typeOid)]
  }

  function Slots(p: Policy, op: Operation, cols: seq<nat>): seq<Slot>
    requires PolicyOk(p) && forall i :: 0 <= i < |cols| ==> cols[i] < |p.columns|
  {
    match op
    case Insert => NewSlots(p, cols)
    case Update => NewSlots(p, cols) + KeySlots(p, |p.keys|) + VersionSlots(p)
    case Delete => KeySlots(p, |p.keys|) + VersionSlots(p)
  }

  // ----- when a plan can be built

  predicate NameOk(name: string) { name != "" && '\0' !in name }

  ghost predicate NamesOk(tokens: seq<Token>) {
    forall i :: 0 <= i < |tokens| && tokens[i].Name? ==> NameOk(tokens[i].name)
  }

  const QUERY_LIMIT := 0x10_0000

  /** The names are usable and the text fits. */
  ghost predicate Room(tokens: seq<Token>) {
    NamesOk(tokens) && |Render(tokens)| <= QUERY_LIMIT
  }

  lemma RoomPrefix(a: seq<Token>, b: seq<Token>)
    requires Room(a + b)
    ensures Room(a)
  {
    RenderAppend(a, b);
    forall i | 0 <= i < |a| && a[i].Name? ensures NameOk(a[i].name) { assert (a + b)[i] == a[i]; }
  }

  predicate IdentityFits(p: Policy, id: Option<Identity>)
    requires PolicyOk(p)
  {
    && id.Some? && id.value.relationOid == p.relationOid && |id.value.keyTypes| == |p.keys|
    && (forall i :: 0 <= i < |p.keys| ==> id.value.keyTypes[i] == p.columns[p.keys[i]].typeOid)
    && (p.mode.Off? || (id.value.optimistic.Some? && id.value.optimistic.value == VersionSlots(p)[0].typeOid))
  }

  predicate ColumnsWritable(p: Policy, op: Operation, cols: seq<nat>)
    requires forall i :: 0 <= i < |cols| ==> cols[i] < |p.columns|
  {
    && (op.Insert? ==> forall i :: 0 <= i < |cols| ==> p.columns[cols[i]].insertable)
    && (op.Update? ==> cols != [] && forall i :: 0 <= i < |cols| ==> p.columns[cols[i]].updatable)
  }

  /** A request the planner has a statement for. */
  ghost predicate Plannable(p: Policy, op: Operation, cols: seq<nat>, id: Option<Identity>)
    requires PolicyOk(p) && Columns(p, cols)
  {
    && p.writable && ColumnsWritable(p, op, cols) && (op.Delete? ==> cols == [])
    && (!op.Insert? ==> IdentityFits(p, id))
    && NamesOk(Statement(p, op, cols)) && |Render(Statement(p, op, cols))| < QUERY_LIMIT
  }
}
