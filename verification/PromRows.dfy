/**
 * The rows of an envelope and the cells they give: what a row says about names and labels, which
 * descriptor keys meet, and when remembering descriptors gives what building them anew gives.
 */
module PromRows {
  import opened Metrics
  import opened Strings
  import opened SortedKeys
  import opened PromCells
  import opened PromMemo

  /** The cells stand for the columns `done` of the row, each once. */
  ghost predicate CellsFor(cx: Context, base: int, row: Row, done: set<string>, cells: seq<Cell>) {
    && |cells| == |done|
    && (forall i :: 0 <= i < |cells| ==> IsCell(cx, base, row, cells[i]) && cells[i].field in done)
    && (forall i, j :: 0 <= i < j < |cells| ==> cells[i].field != cells[j].field)
  }

  ghost predicate IsCell(cx: Context, base: int, row: Row, c: Cell) {
    AreLabels(cx, row, c.labels) && c.field in FieldsOf(row) && c.value == FieldsOf(row)[c.field] && c.at == TimeOf(cx, base, row)
  }

  lemma {:induction false} CellsForMore(cx: Context, base: int, row: Row, done: set<string>, cells: seq<Cell>, c: Cell)
    requires CellsFor(cx, base, row, done, cells) && IsCell(cx, base, row, c) && c.field !in done
    ensures CellsFor(cx, base, row, done + {c.field}, cells + [c])
  {
    hide IsCell;
  }

  lemma {:induction false} NoCells(cx: Context, base: int, row: Row)
    ensures forall keys: set<string> :: CellsFor(cx, base, row, keys - keys, [])
  {
    assert forall keys: set<string> :: keys - keys == {};
  }

  /** The cells of all rows, row by row. */
  ghost predicate CellsOf(cx: Context, base: int, rows: seq<Row>, cells: seq<Cell>) {
    if rows == [] then cells == []
    else
      var k := |rows| - 1;
      exists cut :: 0 <= cut <= |cells| && CellsOf(cx, base, rows[..k], cells[..cut]) &&
        CellsFor(cx, base, rows[k], FieldsOf(rows[k]).Keys, cells[cut..])
  }

  function NumericCells(rows: seq<Row>): nat {
    if rows == [] then 0 else NumericCells(rows[..|rows| - 1]) + |FieldsOf(rows[|rows| - 1])|
  }

  lemma {:induction false} CellCount(cx: Context, base: int, rows: seq<Row>, cells: seq<Cell>)
    requires CellsOf(cx, base, rows, cells)
    ensures |cells| == NumericCells(rows)
  {
    if rows != [] {
      var k := |rows| - 1;
      var cut :| 0 <= cut <= |cells| && CellsOf(cx, base, rows[..k], cells[..cut]) &&
        CellsFor(cx, base, rows[k], FieldsOf(rows[k]).Keys, cells[cut..]);
      CellCount(cx, base, rows[..k], cells[..cut]);
      hide FieldsOf, CellsOf;
      assert |FieldsOf(rows[k]).Keys| == |FieldsOf(rows[k])|;
    }
  }

  lemma {:induction false} CellsOfMore(cx: Context, base: int, rows: seq<Row>, i: nat, cells: seq<Cell>, more: seq<Cell>)
    requires i < |rows| && CellsOf(cx, base, rows[..i], cells)
    requires CellsFor(cx, base, rows[i], FieldsOf(rows[i]).Keys, more)
    ensures CellsOf(cx, base, rows[..i + 1], cells + more)
  {
    hide CellsFor, FieldsOf;
    assert rows[..i + 1][..i] == rows[..i] && rows[..i + 1][i] == rows[i];
    var all := cells + more;
    assert all[..|cells|] == cells && all[|cells|..] == more;
  }

  /* ---- what a row says ---- */

  function LabelIn(cx: Context, row: Row, tag: string): string {
    var k := TAG_PREFIX + tag;
    if k in row && IsTag(k, row[k]) then cx.format(row[k])
    else if tag == DBNAME_LABEL then cx.dbName
    else if tag in cx.customTags then cx.customTags[tag]
    else ""
  }

  function TagNames(row: Row): set<string> {
    set k | k in row && IsTag(k, row[k]) :: TagOf(k)
  }

  function LabelsIn(cx: Context, row: Row): map<string, string> {
    map t | t in TagNames(row) + {DBNAME_LABEL} + cx.customTags.Keys :: LabelIn(cx, row, t)
  }

  lemma {:induction false} LabelsInAre(cx: Context, row: Row)
    ensures AreLabels(cx, row, LabelsIn(cx, row))
  {
    forall t ensures t in LabelsIn(cx, row) <==> HasLabel(cx, row, t) {
      var k := TAG_PREFIX + t;
      assert TAG_PREFIX <= k && TagOf(k) == t;
      if t in TagNames(row) {
        var k' :| k' in row && IsTag(k', row[k']) && TagOf(k') == t;
        assert k' == k;
      }
    }
  }

  /** The labels of a row and the fields it exports. */
  datatype Shape = Shape(labels: map<string, string>, fields: set<string>)

  function ShapeOf(cx: Context, row: Row): Shape {
    Shape(LabelsIn(cx, row), set f | f in FieldsOf(row) && Eligible(cx, f))
  }

  function Shapes(cx: Context, rows: seq<Row>): (r: seq<Shape>)
    ensures |r| == |rows| && forall i :: 0 <= i < |rows| ==> r[i] == ShapeOf(cx, rows[i])
  {
    seq(|rows|, i requires 0 <= i < |rows| => ShapeOf(cx, rows[i]))
  }

  ghost function ShapeIdentity(cx: Context, shape: Shape, field: string): string {
    Identity(MetaOf(cx, field).fqName, ValuesFor(shape.labels, Sorted(shape.labels.Keys)))
  }

  /** What the descriptor of the row's field is remembered under. */
  ghost function ShapeKey(cx: Context, shape: Shape, field: string): (string, string) {
    (MetaOf(cx, field).fqName, Join(Sorted(shape.labels.Keys), KEY_SEPARATOR))
  }

  /** One of the first `n` rows takes the identity. */
  ghost predicate TakenBy(cx: Context, shapes: seq<Shape>, n: nat, identity: string) {
    exists i, f :: 0 <= i < n && i < |shapes| && f in shapes[i].fields && ShapeIdentity(cx, shapes[i], f) == identity
  }

  /** The field of row `i` gets as far as its descriptor: no earlier row has its identity. */
  ghost predicate NewIn(cx: Context, shapes: seq<Shape>, i: int, f: string) {
    0 <= i < |shapes| && f in shapes[i].fields && !TakenBy(cx, shapes, i, ShapeIdentity(cx, shapes[i], f))
  }

  /** Rows that would share a remembered descriptor have the same label names. */
  ghost predicate RowsApart(cx: Context, shapes: seq<Shape>) {
    forall i, j, f, g :: 0 <= i < j < |shapes| && NewIn(cx, shapes, i, f) && NewIn(cx, shapes, j, g) ==>
      (ShapeKey(cx, shapes[i], f) == ShapeKey(cx, shapes[j], g) ==> shapes[i].labels.Keys == shapes[j].labels.Keys)
  }

  /** The cell says what its row says. */
  lemma {:induction false} CellIs(cx: Context, base: int, row: Row, c: Cell)
    requires IsCell(cx, base, row, c)
    ensures c.labels == ShapeOf(cx, row).labels && (Eligible(cx, c.field) <==> c.field in ShapeOf(cx, row).fields)
    ensures IdentityOf(cx, c) == ShapeIdentity(cx, ShapeOf(cx, row), c.field)
    ensures KeyOf(DescOf(cx, c)) == ShapeKey(cx, ShapeOf(cx, row), c.field)
  {
    LabelsInAre(cx, row);
    LabelsUnique(cx, row, c.labels, LabelsIn(cx, row));
    hide AreLabels, LabelsIn, FieldsOf, MetaOf, Join, ValuesFor, Identity, Eligible, TimeOf;
  }

  function FieldSet(cells: seq<Cell>): set<string> {
    set i | 0 <= i < |cells| :: cells[i].field
  }

  lemma {:induction false} FieldCount(cells: seq<Cell>)
    requires forall i, j :: 0 <= i < j < |cells| ==> cells[i].field != cells[j].field
    ensures |FieldSet(cells)| == |cells|
  {
    if cells != [] {
      var n := |cells| - 1;
      FieldCount(cells[..n]);
      assert FieldSet(cells) == FieldSet(cells[..n]) + {cells[n].field} by {
        assert forall i :: 0 <= i < n ==> cells[..n][i] == cells[i];
      }
    }
  }

  lemma {:induction false} SameSize(a: set<string>, b: set<string>)
    requires a <= b && |a| == |b|
    ensures a == b
  {
    assert b == a + (b - a);
  }

  /** Every field of the row has its cell. */
  lemma {:induction false} CellFor(cx: Context, base: int, row: Row, cells: seq<Cell>, f: string) returns (k: nat)
    requires CellsFor(cx, base, row, FieldsOf(row).Keys, cells) && f in FieldsOf(row)
    ensures k < |cells| && cells[k].field == f && IsCell(cx, base, row, cells[k])
  {
    hide FieldsOf, IsCell;
    FieldCount(cells);
    SameSize(FieldSet(cells), FieldsOf(row).Keys);
    assert f in FieldSet(cells);
    k :| 0 <= k < |cells| && cells[k].field == f;
  }

  /* ---- the cells of one more row ---- */

  ghost predicate TakenIn(cx: Context, cells: seq<Cell>, identity: string) {
    exists k :: 0 <= k < |cells| && Eligible(cx, cells[k].field) && IdentityOf(cx, cells[k]) == identity
  }

  lemma {:induction false} TakenMore(cx: Context, a: seq<Cell>, b: seq<Cell>, x: string)
    ensures x in Taken(cx, a + b) <==> x in Taken(cx, a) || TakenIn(cx, b, x)
  {
    hide *;
    if b == [] {
      assert a + b == a;
      NoneTaken(cx, x);
    } else {
      var most, z := b[..|b| - 1], b[|b| - 1];
      TakenMore(cx, a, most, x);
      CellAppend(cx, a + most, z);
      TakenInMore(cx, most, z, x);
      assert a + b == a + most + [z] && b == most + [z];
    }
  }

  lemma {:induction false} NoneTaken(cx: Context, x: string)
    ensures !TakenIn(cx, [], x)
  {
  }

  lemma {:induction false} TakenInMore(cx: Context, cells: seq<Cell>, c: Cell, x: string)
    ensures TakenIn(cx, cells + [c], x) <==> TakenIn(cx, cells, x) || (Eligible(cx, c.field) && IdentityOf(cx, c) == x)
  {
    hide IdentityOf, Eligible;
    assert (cells + [c])[|cells|] == c;
    if TakenIn(cx, cells, x) {
      var k :| 0 <= k < |cells| && Eligible(cx, cells[k].field) && IdentityOf(cx, cells[k]) == x;
      assert (cells + [c])[k] == cells[k];
    }
  }

  lemma {:induction false} TakenInMeans(cx: Context, cells: seq<Cell>, x: string) returns (k: nat)
    requires TakenIn(cx, cells, x)
    ensures k < |cells| && Eligible(cx, cells[k].field) && IdentityOf(cx, cells[k]) == x
  {
    hide IdentityOf, Eligible;
    k :| 0 <= k < |cells| && Eligible(cx, cells[k].field) && IdentityOf(cx, cells[k]) == x;
  }

  lemma {:induction false} FreshMore(cx: Context, a: seq<Cell>, b: seq<Cell>, c: Cell)
    ensures c in Fresh(cx, a) ==> c in Fresh(cx, a + b)
    ensures c in Fresh(cx, a + b) ==> c in Fresh(cx, a) || (c in b && Eligible(cx, c.field) && IdentityOf(cx, c) !in Taken(cx, a))
  {
    hide Taken, IdentityOf, Eligible, Fresh, Sent, TakenIn;
    if b == [] {
      assert a + b == a;
    } else {
      var most, z := b[..|b| - 1], b[|b| - 1];
      FreshMore(cx, a, most, c);
      CellAppend(cx, a + most, z);
      TakenMore(cx, a, most, IdentityOf(cx, z));
      assert a + b == a + most + [z] && b == most + [z];
    }
  }

  /** Some cell of the row takes an identity that is new. */
  lemma {:induction false} FreshTakes(cx: Context, a: seq<Cell>, b: seq<Cell>, k: nat) returns (m: nat)
    requires k < |b| && Eligible(cx, b[k].field) && IdentityOf(cx, b[k]) !in Taken(cx, a)
    ensures m < |b| && b[m] in Fresh(cx, a + b) && IdentityOf(cx, b[m]) == IdentityOf(cx, b[k])
    decreases |b|
  {
    hide *;
    var n := |b| - 1;
    var most, z := b[..n], b[n];
    assert a + b == (a + most) + [z];
    if k < n {
      m := FreshTakes(cx, a, most, k);
      FreshMore(cx, a + most, [z], most[m]);
    } else if TakenIn(cx, most, IdentityOf(cx, z)) {
      var k' := TakenInMeans(cx, most, IdentityOf(cx, z));
      m := FreshTakes(cx, a, most, k');
      FreshMore(cx, a + most, [z], most[m]);
    } else {
      TakenMore(cx, a, most, IdentityOf(cx, z));
      FreshLast(cx, a + most, z);
      m := n;
    }
  }

  lemma {:induction false} FreshLast(cx: Context, cells: seq<Cell>, c: Cell)
    requires Eligible(cx, c.field) && IdentityOf(cx, c) !in Taken(cx, cells)
    ensures c in Fresh(cx, cells + [c])
  {
    CellAppend(cx, cells, c);
    hide Fresh, Taken, IdentityOf, Eligible, Sent;
  }

  lemma {:induction false} RowTakes(cx: Context, base: int, row: Row, cells: seq<Cell>, x: string)
    requires CellsFor(cx, base, row, FieldsOf(row).Keys, cells)
    ensures TakenIn(cx, cells, x) <==> exists f :: f in ShapeOf(cx, row).fields && ShapeIdentity(cx, ShapeOf(cx, row), f) == x
  {
    var shape := ShapeOf(cx, row);
    assert forall f :: f in shape.fields ==> f in FieldsOf(row);
    hide ShapeOf, ShapeIdentity, IdentityOf, FieldsOf, Eligible, IsCell;
    if TakenIn(cx, cells, x) {
      var k :| 0 <= k < |cells| && Eligible(cx, cells[k].field) && IdentityOf(cx, cells[k]) == x;
      CellIs(cx, base, row, cells[k]);
      assert cells[k].field in shape.fields;
    }
    if f :| f in shape.fields && ShapeIdentity(cx, shape, f) == x {
      var k := CellFor(cx, base, row, cells, f);
      CellIs(cx, base, row, cells[k]);
    }
  }

  lemma {:induction false} TakenByMore(cx: Context, rows: seq<Row>, x: string)
    requires rows != []
    ensures var (k, shapes) := (|rows| - 1, Shapes(cx, rows));
      TakenBy(cx, shapes, |rows|, x) <==>
        (TakenBy(cx, Shapes(cx, rows[..k]), k, x) || exists f :: f in shapes[k].fields && ShapeIdentity(cx, shapes[k], f) == x)
  {
    hide ShapeOf, ShapeIdentity;
    var k, shapes, before := |rows| - 1, Shapes(cx, rows), Shapes(cx, rows[..|rows| - 1]);
    assert forall i :: 0 <= i < k ==> before[i] == shapes[i];
    if TakenBy(cx, before, k, x) {
      var i, f :| 0 <= i < k && f in before[i].fields && ShapeIdentity(cx, before[i], f) == x;
      assert f in shapes[i].fields && ShapeIdentity(cx, shapes[i], f) == x;
    }
    if TakenBy(cx, shapes, |rows|, x) {
      var i, f :| 0 <= i < |rows| && f in shapes[i].fields && ShapeIdentity(cx, shapes[i], f) == x;
      if i < k {
        assert f in before[i].fields && ShapeIdentity(cx, before[i], f) == x;
      }
    }
  }

  /** Splitting off the cells of the last row. */
  lemma {:induction false} LastCells(cx: Context, base: int, rows: seq<Row>, cells: seq<Cell>) returns (a: seq<Cell>, b: seq<Cell>)
    requires CellsOf(cx, base, rows, cells) && rows != []
    ensures cells == a + b && CellsOf(cx, base, rows[..|rows| - 1], a)
    ensures CellsFor(cx, base, rows[|rows| - 1], FieldsOf(rows[|rows| - 1]).Keys, b)
  {
    hide CellsFor, FieldsOf;
    var k := |rows| - 1;
    var cut :| 0 <= cut <= |cells| && CellsOf(cx, base, rows[..k], cells[..cut]) &&
      CellsFor(cx, base, rows[k], FieldsOf(rows[k]).Keys, cells[cut..]);
    a, b := cells[..cut], cells[cut..];
  }

  lemma {:induction false} NoRows(cx: Context, base: int, cells: seq<Cell>)
    requires CellsOf(cx, base, [], cells)
    ensures Taken(cx, cells) == {} && Fresh(cx, cells) == []
  {
  }

  lemma {:induction false} NoShapes(cx: Context, x: string)
    ensures !TakenBy(cx, Shapes(cx, []), 0, x)
  {
  }

  /** The identities taken by the cells are those of the rows. */
  lemma {:induction false} TakenIs(cx: Context, base: int, rows: seq<Row>, cells: seq<Cell>, x: string)
    requires CellsOf(cx, base, rows, cells)
    ensures x in Taken(cx, cells) <==> TakenBy(cx, Shapes(cx, rows), |rows|, x)
  {
    hide *;
    if rows == [] {
      NoRows(cx, base, cells);
      NoShapes(cx, x);
    } else {
      var a, b := LastCells(cx, base, rows, cells);
      TakenIs(cx, base, rows[..|rows| - 1], a, x);
      TakenMore(cx, a, b, x);
      RowTakes(cx, base, rows[|rows| - 1], b, x);
      TakenByMore(cx, rows, x);
    }
  }

  lemma {:induction false} NewInPrefix(cx: Context, rows: seq<Row>, i: nat, f: string)
    requires rows != [] && i < |rows| - 1
    ensures Shapes(cx, rows[..|rows| - 1])[i] == Shapes(cx, rows)[i]
    ensures NewIn(cx, Shapes(cx, rows[..|rows| - 1]), i, f) <==> NewIn(cx, Shapes(cx, rows), i, f)
  {
    hide ShapeOf, Shapes, ShapeIdentity, TakenBy;
    SameTaken(cx, rows, |rows| - 1, i, ShapeIdentity(cx, Shapes(cx, rows)[i], f));
  }

  /** Later rows do not matter for what was taken before. */
  lemma {:induction false} SameTaken(cx: Context, rows: seq<Row>, n: nat, i: nat, x: string)
    requires i <= n <= |rows|
    ensures TakenBy(cx, Shapes(cx, rows[..n]), i, x) <==> TakenBy(cx, Shapes(cx, rows), i, x)
  {
    hide ShapeOf, ShapeIdentity;
    var short, long := Shapes(cx, rows[..n]), Shapes(cx, rows);
    assert forall m :: 0 <= m < n ==> short[m] == long[m];
    if TakenBy(cx, long, i, x) {
      var m, f :| 0 <= m < i && f in long[m].fields && ShapeIdentity(cx, long[m], f) == x;
      assert f in short[m].fields && ShapeIdentity(cx, short[m], f) == x;
    }
    if TakenBy(cx, short, i, x) {
      var m, f :| 0 <= m < i && f in short[m].fields && ShapeIdentity(cx, short[m], f) == x;
      assert f in long[m].fields && ShapeIdentity(cx, long[m], f) == x;
    }
  }

  /** The cell is one of row `i`. */
  ghost predicate CellOfRow(cx: Context, shapes: seq<Shape>, i: int, c: Cell) {
    NewIn(cx, shapes, i, c.field) && c.labels == shapes[i].labels && KeyOf(DescOf(cx, c)) == ShapeKey(cx, shapes[i], c.field)
  }

  /** A cell that gets as far as its descriptor belongs to a row whose field does. */
  lemma {:induction false} FreshFrom(cx: Context, base: int, rows: seq<Row>, cells: seq<Cell>, c: Cell) returns (i: nat)
    requires CellsOf(cx, base, rows, cells) && c in Fresh(cx, cells)
    ensures CellOfRow(cx, Shapes(cx, rows), i, c)
    ensures i < |rows| && IsCell(cx, base, rows[i], c)
  {
    hide CellsOf, Fresh, CellsFor, ShapeOf, Shapes, ShapeIdentity, ShapeKey, KeyOf, DescOf, IdentityOf, Taken, TakenBy, IsCell, FieldsOf, Eligible;
    assert rows != [] by {
      if rows == [] {
        NoRows(cx, base, cells);
      }
    }
    var k := |rows| - 1;
    var a, b := LastCells(cx, base, rows, cells);
    FreshMore(cx, a, b, c);
    if c in Fresh(cx, a) {
      i := FreshFrom(cx, base, rows[..k], a, c);
      NewInPrefix(cx, rows, i, c.field);
    } else {
      i := k;
      InRow(cx, base, rows[k], b, c);
      CellIs(cx, base, rows[k], c);
      TakenIs(cx, base, rows[..k], a, IdentityOf(cx, c));
      SameTaken(cx, rows, k, k, IdentityOf(cx, c));
    }
  }

  lemma {:induction false} InRow(cx: Context, base: int, row: Row, cells: seq<Cell>, c: Cell)
    requires CellsFor(cx, base, row, FieldsOf(row).Keys, cells) && c in cells
    ensures IsCell(cx, base, row, c)
  {
    hide IsCell, FieldsOf;
  }

  lemma {:induction false} SamePrefix(a: string, b: string, s: string)
    requires a + s == b + s
    ensures a == b
  {
    assert |a| == |b|;
    assert (a + s)[..|a|] == a && (b + s)[..|b|] == b;
  }

  lemma {:induction false} SameName(cx: Context, shape: Shape, f: string, g: string)
    requires ShapeIdentity(cx, shape, f) == ShapeIdentity(cx, shape, g)
    ensures ShapeKey(cx, shape, f) == ShapeKey(cx, shape, g)
  {
    hide MetaOf, Join, ValuesFor;
    var values := ValuesFor(shape.labels, Sorted(shape.labels.Keys));
    var p, q, rest := MetaOf(cx, f).fqName, MetaOf(cx, g).fqName, Join(values, "_");
    assert p + "_" + rest == p + ("_" + rest) && q + "_" + rest == q + ("_" + rest);
    SamePrefix(p, q, "_" + rest);
  }

  /** A field of a row that gets as far as its descriptor has a cell with the same key that does. */
  lemma {:induction false} FreshFor(cx: Context, base: int, rows: seq<Row>, cells: seq<Cell>, i: nat, f: string) returns (c: Cell)
    requires CellsOf(cx, base, rows, cells) && NewIn(cx, Shapes(cx, rows), i, f)
    ensures c in Fresh(cx, cells) && c.labels == Shapes(cx, rows)[i].labels
    ensures KeyOf(DescOf(cx, c)) == ShapeKey(cx, Shapes(cx, rows)[i], f)
    ensures i < |rows| && IsCell(cx, base, rows[i], c)
  {
    var k := |rows| - 1;
    assert i < |rows| && f in Shapes(cx, rows)[i].fields && (i == k ==> f in FieldsOf(rows[i]) && Eligible(cx, f));
    var a, b := LastCells(cx, base, rows, cells);
    hide CellsOf, Fresh, CellsFor, ShapeOf, ShapeIdentity, ShapeKey, KeyOf, DescOf, IdentityOf, Taken, TakenBy, IsCell, FieldsOf, Eligible;
    if i < k {
      NewInPrefix(cx, rows, i, f);
      c := FreshFor(cx, base, rows[..k], a, i, f);
      FreshMore(cx, a, b, c);
    } else {
      var j := CellFor(cx, base, rows[k], b, f);
      CellIs(cx, base, rows[k], b[j]);
      TakenIs(cx, base, rows[..k], a, IdentityOf(cx, b[j]));
      SameTaken(cx, rows, k, k, IdentityOf(cx, b[j]));
      var m := FreshTakes(cx, a, b, j);
      InRow(cx, base, rows[k], b, b[m]);
      CellIs(cx, base, rows[k], b[m]);
      SameName(cx, ShapeOf(cx, rows[k]), b[m].field, f);
      c := b[m];
    }
  }

  lemma {:induction false} DescIs(cx: Context, c: Cell)
    ensures DescOf(cx, c) == Desc(MetaOf(cx, c.field).fqName, cx.metricName, Sorted(c.labels.Keys))
    ensures KeyOf(DescOf(cx, c)).0 == MetaOf(cx, c.field).fqName
  {
    hide MetaOf, Join;
  }

  /** The labels decide, once the keys are the same. */
  lemma {:induction false} SameDescIff(cx: Context, c: Cell, d: Cell)
    requires KeyOf(DescOf(cx, c)) == KeyOf(DescOf(cx, d))
    ensures DescOf(cx, c) == DescOf(cx, d) <==> c.labels.Keys == d.labels.Keys
  {
    DescIs(cx, c);
    DescIs(cx, d);
    if Sorted(c.labels.Keys) == Sorted(d.labels.Keys) {
      assert Lists(Sorted(c.labels.Keys), c.labels.Keys) && Lists(Sorted(d.labels.Keys), d.labels.Keys);
      assert forall t :: t in c.labels.Keys <==> t in d.labels.Keys;
    }
    hide MetaOf, Join, DescOf, KeyOf;
  }

  /**
   * Of the cells of an envelope no two with one remembered descriptor differ in their label names, if and
   * only if no two rows do: which is said of the rows alone.
   */
  lemma {:induction false} NoClashIff(cx: Context, base: int, rows: seq<Row>, cells: seq<Cell>)
    requires CellsOf(cx, base, rows, cells)
    ensures NoClash(cx, Fresh(cx, cells)) <==> RowsApart(cx, Shapes(cx, rows))
  {
    var news, shapes := Fresh(cx, cells), Shapes(cx, rows);
    hide CellsOf, Fresh, ShapeOf, ShapeKey, KeyOf, DescOf, TakenBy;
    if RowsApart(cx, shapes) {
      forall p, q | 0 <= p < q < |news| && KeyOf(DescOf(cx, news[p])) == KeyOf(DescOf(cx, news[q]))
        ensures DescOf(cx, news[p]) == DescOf(cx, news[q])
      {
        SameDescIff(cx, news[p], news[q]);
        var i := FreshFrom(cx, base, rows, cells, news[p]);
        var j := FreshFrom(cx, base, rows, cells, news[q]);
        assert i < j || j < i || i == j;
      }
    }
    if NoClash(cx, news) {
      forall i, j, f, g | 0 <= i < j < |shapes| && NewIn(cx, shapes, i, f) && NewIn(cx, shapes, j, g) &&
          ShapeKey(cx, shapes[i], f) == ShapeKey(cx, shapes[j], g)
        ensures shapes[i].labels.Keys == shapes[j].labels.Keys
      {
        var c := FreshFor(cx, base, rows, cells, i, f);
        var d := FreshFor(cx, base, rows, cells, j, g);
        SameDescIff(cx, c, d);
        NoClashIn(cx, news, c, d);
      }
    }
  }

  lemma {:induction false} NoClashIn(cx: Context, news: seq<Cell>, c: Cell, d: Cell)
    requires NoClash(cx, news) && c in news && d in news && KeyOf(DescOf(cx, c)) == KeyOf(DescOf(cx, d))
    ensures DescOf(cx, c) == DescOf(cx, d)
  {
    hide DescOf, KeyOf;
    var p :| 0 <= p < |news| && news[p] == c;
    var q :| 0 <= q < |news| && news[q] == d;
    assert p < q || q < p || p == q;
  }

  /* ---- names without the separator ---- */

  /** The source's own tags and the columns of the rows are named without the separator. */
  ghost predicate SeparatorFreeIn(cx: Context, rows: seq<Row>) {
    && NamesFree(cx.customTags.Keys)
    && forall i :: 0 <= i < |rows| ==> NamesFree(rows[i].Keys)
  }

  lemma {:induction false} LabelsFree(cx: Context, row: Row)
    requires NamesFree(cx.customTags.Keys) && NamesFree(row.Keys)
    ensures NamesFree(LabelsIn(cx, row).Keys) && DBNAME_LABEL in LabelsIn(cx, row)
  {
    forall t | t in LabelsIn(cx, row).Keys ensures KEY_SEPARATOR[0] !in t {
      if t in TagNames(row) {
        var k :| k in row && IsTag(k, row[k]) && TagOf(k) == t;
        assert forall c :: c in t ==> c in k;
      }
    }
  }

  /** Joined with a separator none of them holds, names can be told apart. */
  lemma {:induction false} FreeNamesDiffer(names: set<string>, names': set<string>)
    requires names != {} && names' != {} && NamesFree(names) && NamesFree(names')
    requires Join(Sorted(names), KEY_SEPARATOR) == Join(Sorted(names'), KEY_SEPARATOR)
    ensures names == names'
  {
    FreeList(Sorted(names), names);
    FreeList(Sorted(names'), names');
    SplitJoin(Sorted(names), KEY_SEPARATOR);
    SplitJoin(Sorted(names'), KEY_SEPARATOR);
    assert Lists(Sorted(names), names) && Lists(Sorted(names'), names');
    hide Join, Ascending, NamesFree;
    assert forall t :: t in names <==> t in names';
  }

  lemma {:induction false} FreeRowsApart(cx: Context, rows: seq<Row>)
    requires SeparatorFreeIn(cx, rows)
    ensures RowsApart(cx, Shapes(cx, rows))
  {
    var shapes := Shapes(cx, rows);
    hide LabelsIn, NewIn, NamesFree, Join, MetaOf;
    forall i, j, f, g | 0 <= i < j < |shapes| && NewIn(cx, shapes, i, f) && NewIn(cx, shapes, j, g) &&
        ShapeKey(cx, shapes[i], f) == ShapeKey(cx, shapes[j], g)
      ensures shapes[i].labels.Keys == shapes[j].labels.Keys
    {
      LabelsFree(cx, rows[i]);
      LabelsFree(cx, rows[j]);
      FreeNamesDiffer(shapes[i].labels.Keys, shapes[j].labels.Keys);
    }
  }

  /** Pinning the epoch of a row changes neither its labels nor its fields. */
  lemma {:induction false} PinKeepsShape(cx: Context, row: Row, now: int)
    ensures ShapeOf(cx, Pin(row, now)) == ShapeOf(cx, row)
  {
    var row' := Pin(row, now);
    assert forall k :: k != EPOCH_COLUMN ==> (k in row' <==> k in row) && (k in row ==> row'[k] == row[k]);
    assert TagNames(row') == TagNames(row);
    assert forall t :: LabelIn(cx, row', t) == LabelIn(cx, row, t);
    assert FieldsOf(row') == FieldsOf(row);
    hide Numeric, Eligible;
  }

  lemma {:induction false} PinKeepsShapes(cx: Context, rows: seq<Row>, now: int)
    requires rows != []
    ensures Shapes(cx, rows[0 := Pin(rows[0], now)]) == Shapes(cx, rows)
  {
    PinKeepsShape(cx, rows[0], now);
    hide ShapeOf, Pin;
  }
}
