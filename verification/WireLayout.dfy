/** Little-endian fixed-layout records, shared by the plan codec and the
    metadata snapshot codec. A layout is the list of field widths in bytes. */
module WireLayout {

  type Byte = x: nat | x < 256

  function Pow256(n: nat): (r: nat)
    ensures r > 0
  {
    if n == 0 then 1 else 256 * Pow256(n - 1)
  }

  /** The low `n` bytes of `v`, least significant first. */
  function Put(n: nat, v: nat): (r: seq<Byte>)
    ensures |r| == n
  {
    if n == 0 then [] else [v % 256] + Put(n - 1, v / 256)
  }

  function Get(b: seq<Byte>): (r: nat)
    ensures r < Pow256(|b|)
  {
    if b == [] then 0 else b[0] + 256 * Get(b[1..])
  }

  lemma {:induction false} GetPut(n: nat, v: nat)
    requires v < Pow256(n)
    ensures Get(Put(n, v)) == v
  {
    if n > 0 {
      GetPut(n - 1, v / 256);
      assert Put(n, v)[1..] == Put(n - 1, v / 256);
    }
  }

  lemma {:induction false} PutGet(b: seq<Byte>)
    ensures Put(|b|, Get(b)) == b
  {
    if b != [] {
      PutGet(b[1..]);
      assert Get(b) % 256 == b[0] && Get(b) / 256 == Get(b[1..]);
    }
  }

  function Size(layout: seq<nat>): nat {
    if layout == [] then 0 else layout[0] + Size(layout[1..])
  }

  /** Every field value fits the width its layout gives it. */
  ghost predicate Fits(layout: seq<nat>, fields: seq<nat>) {
    |layout| == |fields| && forall i :: 0 <= i < |layout| ==> fields[i] < Pow256(layout[i])
  }

  function PutRecord(layout: seq<nat>, fields: seq<nat>): (r: seq<Byte>)
    requires |layout| == |fields|
    ensures |r| == Size(layout)
    decreases |layout| + |fields|
  {
    if layout == [] then [] else Put(layout[0], fields[0]) + PutRecord(layout[1..], fields[1..])
  }

  function GetRecord(layout: seq<nat>, b: seq<Byte>): (r: seq<nat>)
    requires |b| == Size(layout)
    ensures Fits(layout, r)
    decreases |layout| + |b|
  {
    if layout == [] then []
    else
      var head, tail := Get(b[..layout[0]]), GetRecord(layout[1..], b[layout[0]..]);
      assert forall i :: 0 < i < |layout| ==> ([head] + tail)[i] == tail[i - 1] && layout[i] == layout[1..][i - 1];
      [head] + tail
  }

  lemma {:induction false} GetPutRecord(layout: seq<nat>, fields: seq<nat>)
    requires Fits(layout, fields)
    ensures GetRecord(layout, PutRecord(layout, fields)) == fields
  {
    if layout != [] {
      var b := PutRecord(layout, fields);
      GetPut(layout[0], fields[0]);
      GetPutRecord(layout[1..], fields[1..]);
      assert b[..layout[0]] == Put(layout[0], fields[0]);
      assert b[layout[0]..] == PutRecord(layout[1..], fields[1..]);
    }
  }

  lemma {:induction false} PutGetRecord(layout: seq<nat>, b: seq<Byte>)
    requires |b| == Size(layout)
    ensures PutRecord(layout, GetRecord(layout, b)) == b
  {
    if layout != [] {
      PutGet(b[..layout[0]]);
      PutGetRecord(layout[1..], b[layout[0]..]);
      var r := GetRecord(layout, b);
      assert r[1..] == GetRecord(layout[1..], b[layout[0]..]);
      assert b == b[..layout[0]] + b[layout[0]..];
    }
  }

  /** Bytes taken by `n` records of one layout. */
  function Extent(layout: seq<nat>, n: nat): nat {
    if n == 0 then 0 else Extent(layout, n - 1) + Size(layout)
  }

  lemma {:induction false} ExtentIs(layout: seq<nat>, n: nat)
    ensures Extent(layout, n) == n * Size(layout)
  {
    if n > 0 {
      ExtentIs(layout, n - 1);
      assert n * Size(layout) == (n - 1) * Size(layout) + Size(layout);
    }
  }

  ghost predicate AllFit(layout: seq<nat>, rows: seq<seq<nat>>) {
    forall i :: 0 <= i < |rows| ==> |rows[i]| == |layout| && Fits(layout, rows[i])
  }

  /** A table of records of one layout, appended row by row. */
  function PutTable(layout: seq<nat>, rows: seq<seq<nat>>): (r: seq<Byte>)
    requires forall i :: 0 <= i < |rows| ==> |rows[i]| == |layout|
    ensures |r| == Extent(layout, |rows|)
  {
    if rows == [] then []
    else
      PutTable(layout, rows[..|rows| - 1]) + PutRecord(layout, rows[|rows| - 1])
  }

  function GetTable(layout: seq<nat>, n: nat, b: seq<Byte>): (r: seq<seq<nat>>)
    requires |b| == Extent(layout, n)
    ensures |r| == n && AllFit(layout, r)
  {
    if n == 0 then []
    else
      var cut := Extent(layout, n - 1);
      GetTable(layout, n - 1, b[..cut]) + [GetRecord(layout, b[cut..])]
  }

  lemma GetTableNext(layout: seq<nat>, n: nat, front: seq<Byte>, last: seq<Byte>, b: seq<Byte>)
    requires |front| == Extent(layout, n) && |last| == Size(layout) && b == front + last
    ensures |b| == Extent(layout, n + 1)
    ensures GetTable(layout, n + 1, b) == GetTable(layout, n, front) + [GetRecord(layout, last)]
  {
    assert b[..|front|] == front && b[|front|..] == last;
  }

  lemma PutTableNext(layout: seq<nat>, rows: seq<seq<nat>>, row: seq<nat>)
    requires |row| == |layout| && forall i :: 0 <= i < |rows| ==> |rows[i]| == |layout|
    ensures PutTable(layout, rows + [row]) == PutTable(layout, rows) + PutRecord(layout, row)
  {
    assert (rows + [row])[..|rows|] == rows;
  }

  /** The bytes of the last row of a table that is written, and those in front of it. */
  lemma WrittenRow(layout: seq<nat>, front: seq<seq<nat>>, row: seq<nat>) returns (b: seq<Byte>, last: seq<Byte>)
    requires AllFit(layout, front) && |row| == |layout| && Fits(layout, row)
    ensures |b| == Extent(layout, |front|) && b == PutTable(layout, front)
    ensures |last| == Size(layout) && GetRecord(layout, last) == row
    ensures PutTable(layout, front + [row]) == b + last
  {
    b, last := PutTable(layout, front), PutRecord(layout, row);
    GetPutRecord(layout, row);
    PutTableNext(layout, front, row);
  }

  lemma GetPutRow(layout: seq<nat>, front: seq<seq<nat>>, row: seq<nat>)
    requires AllFit(layout, front) && AllFit(layout, front + [row]) && |row| == |layout| && Fits(layout, row)
    requires GetTable(layout, |front|, PutTable(layout, front)) == front
    ensures GetTable(layout, |front| + 1, PutTable(layout, front + [row])) == front + [row]
  {
    var b, last := WrittenRow(layout, front, row);
    GetTableNext(layout, |front|, b, last, b + last);
  }

  lemma {:induction false} GetPutTable(layout: seq<nat>, rows: seq<seq<nat>>)
    requires AllFit(layout, rows)
    ensures GetTable(layout, |rows|, PutTable(layout, rows)) == rows
    decreases |rows|
  {
    if rows != [] {
      var front, row := rows[..|rows| - 1], rows[|rows| - 1];
      GetPutTable(layout, front);
      assert rows == front + [row];
      GetPutRow(layout, front, row);
    }
  }

  /** The last row of a table that is read, and what is in front of it. */
  lemma CutRow(layout: seq<nat>, n: nat, b: seq<Byte>) returns (front: seq<Byte>, last: seq<Byte>, rows: seq<seq<nat>>, row: seq<nat>)
    requires n > 0 && |b| == Extent(layout, n)
    ensures b == front + last && |front| == Extent(layout, n - 1)
    ensures rows == GetTable(layout, n - 1, front) && |row| == |layout| && PutRecord(layout, row) == last
    ensures GetTable(layout, n, b) == rows + [row]
  {
    var cut := Extent(layout, n - 1);
    front, last := b[..cut], b[cut..];
    rows, row := GetTable(layout, n - 1, front), GetRecord(layout, last);
    PutGetRecord(layout, last);
  }

  lemma {:induction false} PutGetTable(layout: seq<nat>, n: nat, b: seq<Byte>)
    requires |b| == Extent(layout, n)
    ensures PutTable(layout, GetTable(layout, n, b)) == b
    decreases n
  {
    if n > 0 {
      var front, last, rows, row := CutRow(layout, n, b);
      PutGetTable(layout, n - 1, front);
      PutTableNext(layout, rows, row);
    }
  }

  // ----- several tables, each of its own layout

  ghost predicate TablesFit(layouts: seq<seq<nat>>, tables: seq<seq<seq<nat>>>) {
    |layouts| == |tables| && forall k :: 0 <= k < |layouts| ==> AllFit(layouts[k], tables[k])
  }

  function Extents(layouts: seq<seq<nat>>, counts: seq<nat>): nat
    requires |layouts| == |counts|
    decreases |layouts| + |counts|
  {
    if layouts == [] then 0 else Extent(layouts[0], counts[0]) + Extents(layouts[1..], counts[1..])
  }

  function Counts(tables: seq<seq<seq<nat>>>): seq<nat> {
    seq(|tables|, k requires 0 <= k < |tables| => |tables[k]|)
  }

  ghost function PutTables(layouts: seq<seq<nat>>, tables: seq<seq<seq<nat>>>): (w: seq<Byte>)
    requires TablesFit(layouts, tables)
    ensures |w| == Extents(layouts, Counts(tables))
    decreases |layouts| + |tables|
  {
    if layouts == [] then []
    else
      assert Counts(tables)[1..] == Counts(tables[1..]);
      PutTable(layouts[0], tables[0]) + PutTables(layouts[1..], tables[1..])
  }

  function GetTables(layouts: seq<seq<nat>>, counts: seq<nat>, w: seq<Byte>): (tables: seq<seq<seq<nat>>>)
    requires |layouts| == |counts| && |w| == Extents(layouts, counts)
    ensures TablesFit(layouts, tables) && Counts(tables) == counts
    decreases |layouts| + |counts| + |w|
  {
    if layouts == [] then []
    else
      var cut := Extent(layouts[0], counts[0]);
      var head, tail := GetTable(layouts[0], counts[0], w[..cut]), GetTables(layouts[1..], counts[1..], w[cut..]);
      TablesCons(layouts, head, tail);
      [head] + tail
  }

  lemma TablesCons(layouts: seq<seq<nat>>, head: seq<seq<nat>>, tail: seq<seq<seq<nat>>>)
    requires layouts != [] && AllFit(layouts[0], head) && TablesFit(layouts[1..], tail)
    ensures TablesFit(layouts, [head] + tail)
    ensures Counts([head] + tail) == [|head|] + Counts(tail)
  {
    forall k | 0 <= k < |layouts| ensures AllFit(layouts[k], ([head] + tail)[k]) {
      if k > 0 { assert layouts[k] == layouts[1..][k - 1]; }
    }
  }

  lemma PutTablesNext(layouts: seq<seq<nat>>, tables: seq<seq<seq<nat>>>)
    requires TablesFit(layouts, tables) && layouts != []
    ensures TablesFit(layouts[1..], tables[1..])
    ensures PutTables(layouts, tables) == PutTable(layouts[0], tables[0]) + PutTables(layouts[1..], tables[1..])
  {
    forall k | 0 <= k < |layouts[1..]| ensures AllFit(layouts[1..][k], tables[1..][k]) {
      assert layouts[1..][k] == layouts[k + 1] && tables[1..][k] == tables[k + 1];
    }
  }

  lemma GetTablesNext(layouts: seq<seq<nat>>, counts: seq<nat>, head: seq<Byte>, tail: seq<Byte>, w: seq<Byte>)
    requires |layouts| == |counts| && layouts != [] && w == head + tail
    requires |head| == Extent(layouts[0], counts[0]) && |tail| == Extents(layouts[1..], counts[1..])
    ensures |w| == Extents(layouts, counts)
    ensures GetTables(layouts, counts, w) == [GetTable(layouts[0], counts[0], head)] + GetTables(layouts[1..], counts[1..], tail)
  {
    assert w[..|head|] == head && w[|head|..] == tail;
  }

  lemma {:induction false} GetPutTables(layouts: seq<seq<nat>>, tables: seq<seq<seq<nat>>>)
    requires TablesFit(layouts, tables)
    ensures GetTables(layouts, Counts(tables), PutTables(layouts, tables)) == tables
    decreases |layouts|
  {
    if layouts != [] {
      GetPutTable(layouts[0], tables[0]);
      PutTablesNext(layouts, tables);
      GetPutTables(layouts[1..], tables[1..]);
      assert Counts(tables)[1..] == Counts(tables[1..]);
      GetTablesNext(layouts, Counts(tables), PutTable(layouts[0], tables[0]), PutTables(layouts[1..], tables[1..]),
                    PutTables(layouts, tables));
    }
  }

  /** The first of several tables that are read, and what is behind it. */
  lemma CutTable(layouts: seq<seq<nat>>, counts: seq<nat>, w: seq<Byte>)
    returns (head: seq<Byte>, tail: seq<Byte>, table: seq<seq<nat>>, tables: seq<seq<seq<nat>>>)
    requires |layouts| == |counts| && layouts != [] && |w| == Extents(layouts, counts)
    ensures w == head + tail && |tail| == Extents(layouts[1..], counts[1..])
    ensures AllFit(layouts[0], table) && PutTable(layouts[0], table) == head
    ensures tables == GetTables(layouts[1..], counts[1..], tail) && GetTables(layouts, counts, w) == [table] + tables
  {
    var cut := Extent(layouts[0], counts[0]);
    head, tail := w[..cut], w[cut..];
    table, tables := GetTable(layouts[0], counts[0], head), GetTables(layouts[1..], counts[1..], tail);
    PutGetTable(layouts[0], counts[0], head);
  }

  lemma {:induction false} PutGetTables(layouts: seq<seq<nat>>, counts: seq<nat>, w: seq<Byte>)
    requires |layouts| == |counts| && |w| == Extents(layouts, counts)
    ensures PutTables(layouts, GetTables(layouts, counts, w)) == w
    decreases |layouts|
  {
    if layouts != [] {
      var head, tail, table, tables := CutTable(layouts, counts, w);
      PutGetTables(layouts[1..], counts[1..], tail);
      assert ([table] + tables)[1..] == tables;
      PutTablesNext(layouts, [table] + tables);
    }
  }

  // ----- a header whose fields from position `counts` on count the rows of each table

  datatype Format = Format(header: seq<nat>, counts: nat, tables: seq<seq<nat>>)
  datatype Image = Image(header: seq<nat>, tables: seq<seq<seq<nat>>>)

  ghost predicate WellFormat(f: Format) {
    f.counts + |f.tables| <= |f.header|
  }

  function CountsIn(f: Format, header: seq<nat>): seq<nat>
    requires f.counts + |f.tables| <= |header|
  {
    header[f.counts..f.counts + |f.tables|]
  }

  ghost predicate ImageFits(f: Format, i: Image) {
    && WellFormat(f) && Fits(f.header, i.header) && TablesFit(f.tables, i.tables)
    && CountsIn(f, i.header) == Counts(i.tables)
  }

  ghost function PutImage(f: Format, i: Image): (w: seq<Byte>)
    requires ImageFits(f, i)
    ensures |w| == Size(f.header) + Extents(f.tables, Counts(i.tables))
  {
    PutRecord(f.header, i.header) + PutTables(f.tables, i.tables)
  }

  predicate Cuttable(f: Format, w: seq<Byte>)
    requires WellFormat(f)
  {
    && Size(f.header) <= |w|
    && var h := GetRecord(f.header, w[..Size(f.header)]);
       |w| - Size(f.header) == Extents(f.tables, CountsIn(f, h))
  }

  /** A byte string cut at the offsets its own header gives. */
  function Cut(f: Format, w: seq<Byte>): (i: Image)
    requires WellFormat(f) && Cuttable(f, w)
    ensures ImageFits(f, i) && i.header == GetRecord(f.header, w[..Size(f.header)])
  {
    var h := GetRecord(f.header, w[..Size(f.header)]);
    Image(h, GetTables(f.tables, CountsIn(f, h), w[Size(f.header)..]))
  }

  lemma CutPut(f: Format, i: Image)
    requires ImageFits(f, i)
    ensures Cuttable(f, PutImage(f, i)) && Cut(f, PutImage(f, i)) == i
  {
    var w := PutImage(f, i);
    GetPutRecord(f.header, i.header);
    GetPutTables(f.tables, i.tables);
    assert w[..Size(f.header)] == PutRecord(f.header, i.header);
    assert w[Size(f.header)..] == PutTables(f.tables, i.tables);
  }

  lemma PutCut(f: Format, w: seq<Byte>)
    requires WellFormat(f) && Cuttable(f, w)
    ensures PutImage(f, Cut(f, w)) == w
  {
    var a := Size(f.header);
    var h := GetRecord(f.header, w[..a]);
    PutGetRecord(f.header, w[..a]);
    PutGetTables(f.tables, CountsIn(f, h), w[a..]);
    assert w == w[..a] + w[a..];
  }

  lemma Widths()
    ensures Pow256(1) == 0x100 && Pow256(2) == 0x1_0000
    ensures Pow256(4) == 0x1_0000_0000 && Pow256(8) == 0x1_0000_0000_0000_0000
  {
    assert Pow256(4) == 256 * Pow256(3) && Pow256(3) == 256 * Pow256(2);
    assert Pow256(8) == 256 * Pow256(7) && Pow256(7) == 256 * Pow256(6);
    assert Pow256(6) == 256 * Pow256(5) && Pow256(5) == 256 * Pow256(4);
  }
}
