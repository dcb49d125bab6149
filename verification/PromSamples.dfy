/**
 * What the exporter's samples say about the rows, in the rows' own terms: which cell a sample comes from, its
 * number, name, type, labels and time; and which cells have one.
 */
module PromSamples {
  import opened Metrics
  import opened Strings
  import opened SortedKeys
  import opened PromCells
  import opened PromMemo
  import opened PromRows

  /** The number a cell holds. */
  predicate Holds(v: Value, x: real) {
    match v
    case Int64(i) => x == i as real
    case Int(n) => x == n as real
    case Float(r) => x == r
    case Bool(b) => x == if b then 1.0 else 0.0
    case _ => false
  }

  /** A column with a number or a truth value, neither a tag nor the time. */
  predicate NumericColumn(row: Row, k: string) {
    && k in row && (row[k].Int64? || row[k].Int? || row[k].Float? || row[k].Bool?)
    && k != "epoch_ns" && !("tag_" <= k)
  }

  /** A column that is exported: of a Prometheus source only the family's own. */
  predicate Exports(cx: Context, row: Row, k: string) {
    NumericColumn(row, k) && (cx.promSource ==> k == cx.metricName)
  }

  function NameFor(cx: Context, k: string): string {
    if cx.promSource then k
    else if cx.metricName == "instance_up" then cx.namespace + "_instance_up"
    else cx.namespace + "_" + cx.metricName + "_" + k
  }

  function TypeFor(cx: Context, k: string): ValueType {
    if cx.promSource then Untyped
    else if cx.metricName == "instance_up" || (|cx.gauges| > 0 && cx.gauges[0] == "*") || k in cx.gauges then Gauge
    else Counter
  }

  /** A tag column with something in it. */
  predicate Tagged(row: Row, k: string) {
    "tag_" <= k && k in row && row[k] != Null && row[k] != Text("")
  }

  /** The labels of a row: its tag columns, then the database name, then the source's own tags; nothing else. */
  ghost predicate LabelledBy(cx: Context, row: Row, labels: map<string, string>) {
    && (forall k :: Tagged(row, k) ==> k[4..] in labels && labels[k[4..]] == cx.format(row[k]))
    && "dbname" in labels && (!Tagged(row, "tag_dbname") ==> labels["dbname"] == cx.dbName)
    && (forall t :: t in cx.customTags && t != "dbname" && !Tagged(row, "tag_" + t) ==> t in labels && labels[t] == cx.customTags[t])
    && (forall t :: t in labels ==> t == "dbname" || t in cx.customTags || Tagged(row, "tag_" + t))
  }

  /** The values of the labels, in the order of their names. */
  ghost predicate ValuesOf(labels: map<string, string>, keys: seq<string>, values: seq<string>) {
    && Ascending(keys) && Lists(keys, labels.Keys) && |values| == |keys|
    && forall i :: 0 <= i < |keys| ==> keys[i] in labels && values[i] == labels[keys[i]]
  }

  function TimeFor(cx: Context, base: int, row: Row): int {
    if cx.promSource && "epoch_ns" in row && row["epoch_ns"].Int64? && row["epoch_ns"].i != 0 then row["epoch_ns"].i else base
  }

  ghost predicate LabelValues(cx: Context, row: Row, values: seq<string>) {
    exists labels, keys :: LabelledBy(cx, row, labels) && ValuesOf(labels, keys, values)
  }

  /** The sample is the one of column `k` of the row; its descriptor's label names are left open. */
  ghost predicate SampleFrom(cx: Context, base: int, row: Row, k: string, s: Sample) {
    && Exports(cx, row, k) && Holds(row[k], s.value)
    && s.desc.fqName == NameFor(cx, k) && s.desc.help == cx.metricName && s.valueType == TypeFor(cx, k)
    && s.at == TimeFor(cx, base, row) && LabelValues(cx, row, s.labelValues)
  }

  /** ... and the label names are right, too. */
  ghost predicate ProperSample(cx: Context, base: int, row: Row, k: string, s: Sample) {
    && SampleFrom(cx, base, row, k, s)
    && exists labels :: LabelledBy(cx, row, labels) && ValuesOf(labels, s.desc.labelKeys, s.labelValues)
  }

  /** What the exporter tells samples apart by. */
  function Handle(s: Sample): string {
    s.desc.fqName + "_" + Join(s.labelValues, "_")
  }

  /* ---- the cells' own terms ---- */

  lemma {:induction false} LabelsRead(cx: Context, row: Row, labels: map<string, string>)
    requires AreLabels(cx, row, labels)
    ensures LabelledBy(cx, row, labels)
  {
    assert TAG_PREFIX == "tag_" && DBNAME_LABEL == "dbname" && "tag_dbname" == TAG_PREFIX + "dbname";
    forall k | Tagged(row, k) ensures k[4..] in labels && labels[k[4..]] == cx.format(row[k]) {
      assert k == TAG_PREFIX + k[4..] && k[0] == 't';
      assert IsTag(k, row[k]);
      assert HasLabel(cx, row, k[4..]) && LabelOf(cx, row, k[4..], labels[k[4..]]);
    }
    forall t ensures Tagged(row, "tag_" + t) <==> "tag_" + t in row && IsTag("tag_" + t, row["tag_" + t]) {
      assert ("tag_" + t)[0] == 't';
    }
    assert HasLabel(cx, row, "dbname") && LabelOf(cx, row, "dbname", labels["dbname"]);
    forall t | t in cx.customTags && t != "dbname" && !Tagged(row, "tag_" + t) ensures t in labels && labels[t] == cx.customTags[t] {
      assert HasLabel(cx, row, t) && LabelOf(cx, row, t, labels[t]);
    }
    forall t | t in labels ensures t == "dbname" || t in cx.customTags || Tagged(row, "tag_" + t) {
      assert HasLabel(cx, row, t);
    }
  }

  lemma {:induction false} ValuesRead(labels: map<string, string>, keys: seq<string>)
    requires forall i :: 0 <= i < |keys| ==> keys[i] in labels
    ensures |ValuesFor(labels, keys)| == |keys| && forall i :: 0 <= i < |keys| ==> ValuesFor(labels, keys)[i] == labels[keys[i]]
  {
    if keys != [] {
      ValuesRead(labels, keys[..|keys| - 1]);
    }
  }

  lemma {:induction false} SortedValues(labels: map<string, string>)
    ensures ValuesOf(labels, Sorted(labels.Keys), ValuesFor(labels, Sorted(labels.Keys)))
  {
    var keys := Sorted(labels.Keys);
    forall i | 0 <= i < |keys| ensures keys[i] in labels {
      assert keys[i] in keys;
    }
    ValuesRead(labels, keys);
    hide ValuesFor, Ascending, Lists;
  }

  lemma {:induction false} MetaRead(cx: Context, k: string)
    requires Eligible(cx, k)
    ensures MetaOf(cx, k) == Meta(NameFor(cx, k), TypeFor(cx, k))
  {
  }

  lemma {:induction false} FieldRead(cx: Context, row: Row, k: string)
    ensures k in FieldsOf(row) <==> NumericColumn(row, k)
    ensures k in FieldsOf(row) && Eligible(cx, k) <==> Exports(cx, row, k)
    ensures k in FieldsOf(row) ==> Holds(row[k], FieldsOf(row)[k])
  {
  }

  /** The sample carries the cell, with some descriptor of the cell's name. */
  ghost predicate Carries(cx: Context, c: Cell, s: Sample) {
    && s.value == c.value && s.at == c.at && s.valueType == MetaOf(cx, c.field).valueType
    && s.desc.fqName == MetaOf(cx, c.field).fqName && s.desc.help == cx.metricName
    && s.labelValues == ValuesFor(c.labels, Sorted(c.labels.Keys))
  }

  lemma {:induction false} CellRead(cx: Context, base: int, row: Row, c: Cell, s: Sample)
    requires IsCell(cx, base, row, c) && Eligible(cx, c.field) && Carries(cx, c, s)
    ensures SampleFrom(cx, base, row, c.field, s)
    ensures s.desc.labelKeys == Sorted(c.labels.Keys) ==> ProperSample(cx, base, row, c.field, s)
  {
    LabelsRead(cx, row, c.labels);
    SortedValues(c.labels);
    MetaRead(cx, c.field);
    FieldRead(cx, row, c.field);
    hide AreLabels, LabelledBy, ValuesOf, FieldsOf, MetaOf, Exports, Holds, NameFor, TypeFor, Eligible, ValuesFor;
    assert LabelValues(cx, row, s.labelValues);
  }

  lemma {:induction false} BuildCarries(cx: Context, c: Cell)
    ensures Carries(cx, c, Build(cx, c)) && Build(cx, c).desc.labelKeys == Sorted(c.labels.Keys)
    ensures IdentityOf(cx, c) == Handle(Build(cx, c))
  {
    hide MetaOf, ValuesFor, Join;
  }

  lemma {:induction false} RecallCarries(cx: Context, news: seq<Cell>, c: Cell)
    ensures Carries(cx, c, Recall(cx, news, c))
  {
    BuildCarries(cx, c);
    var k := KeyOf(DescOf(cx, c));
    MemoIsFirst(cx, news, k);
    RecallIsBuild(cx, news, c);
    DescIs(cx, c);
    hide Memo, Build, Recall, KeyOf, DescOf, MetaOf;
    if i :| FirstWith(cx, news, k, i) {
      DescIs(cx, news[i]);
    }
  }

  /** Every sample sent carries one of the cells. */
  lemma {:induction false} SentCarries(cx: Context, cells: seq<Cell>, s: Sample) returns (c: Cell)
    requires s in Sent(cx, cells)
    ensures c in cells && c in Fresh(cx, cells) && Eligible(cx, c.field) && Carries(cx, c, s)
  {
    var before, last := cells[..|cells| - 1], cells[|cells| - 1];
    assert Sent(cx, cells) ==
      if Passes(cx, before, last) && cx.accepts(Recall(cx, Fresh(cx, before), last)) then Sent(cx, before) + [Recall(cx, Fresh(cx, before), last)]
      else Sent(cx, before);
    assert Fresh(cx, cells) == if Passes(cx, before, last) then Fresh(cx, before) + [last] else Fresh(cx, before);
    hide Sent, Recall, Carries, IdentityOf, Taken, Fresh;
    if s in Sent(cx, before) {
      c := SentCarries(cx, before, s);
    } else {
      RecallCarries(cx, Fresh(cx, before), last);
      c := last;
    }
  }

  lemma {:induction false} CellFromRow(cx: Context, base: int, rows: seq<Row>, cells: seq<Cell>, c: Cell) returns (i: nat)
    requires CellsOf(cx, base, rows, cells) && c in cells
    ensures i < |rows| && IsCell(cx, base, rows[i], c)
  {
    hide CellsFor, IsCell, FieldsOf;
    var k := |rows| - 1;
    var a, b := LastCells(cx, base, rows, cells);
    if c in b {
      InRow(cx, base, rows[k], b, c);
      i := k;
    } else {
      i := CellFromRow(cx, base, rows[..k], a, c);
    }
  }

  lemma {:induction false} EmittedHas(cx: Context, cells: seq<Cell>, c: Cell)
    requires c in Fresh(cx, cells) && cx.accepts(Build(cx, c))
    ensures Build(cx, c) in Emitted(cx, cells)
  {
    var before, last := cells[..|cells| - 1], cells[|cells| - 1];
    assert cells == before + [last];
    CellAppend(cx, before, last);
    EmittedAppend(cx, before, last);
    hide Fresh, Emitted, Build, Passes, Sent, Taken;
    if c in Fresh(cx, before) {
      EmittedHas(cx, before, c);
    }
  }

  /* ---- the rows' own terms ---- */

  /** No earlier row has a sample the exporter would take for the one of this column. */
  ghost predicate NewHandle(cx: Context, base: int, rows: seq<Row>, i: nat, k: string)
    requires i < |rows|
  {
    forall j, f, s, s' :: 0 <= j < i && SampleFrom(cx, base, rows[i], k, s) && SampleFrom(cx, base, rows[j], f, s') ==> Handle(s) != Handle(s')
  }

  /** Every sample is the one of some exported column of some row, and no earlier row has one that looks the same. */
  ghost predicate AllFromRows(cx: Context, base: int, rows: seq<Row>, out: seq<Sample>) {
    forall s :: s in out ==> exists i, k :: 0 <= i < |rows| && SampleFrom(cx, base, rows[i], k, s) && NewHandle(cx, base, rows, i, k)
  }

  lemma {:induction false} SentFromRows(cx: Context, base: int, rows: seq<Row>, cells: seq<Cell>)
    requires CellsOf(cx, base, rows, cells)
    ensures AllFromRows(cx, base, rows, Sent(cx, cells))
  {
    hide Sent, CellsOf, SampleFrom, IsCell, Carries, NewHandle, Fresh, ShapeOf, NewIn;
    forall s | s in Sent(cx, cells)
      ensures exists i, k :: 0 <= i < |rows| && SampleFrom(cx, base, rows[i], k, s) && NewHandle(cx, base, rows, i, k)
    {
      var c := SentCarries(cx, cells, s);
      var i := FreshFrom(cx, base, rows, cells, c);
      FreshIsCell(cx, base, rows, cells, i, c, s);
      NewIsNewHandle(cx, base, rows, i, c.field);
    }
  }

  /** A row has one set of labels, one order of their names, and so one text to be told apart by. */
  lemma {:induction false} LabelledOnce(cx: Context, row: Row, a: map<string, string>, b: map<string, string>)
    requires LabelledBy(cx, row, a) && LabelledBy(cx, row, b)
    ensures a == b
  {
    hide LabelledBy;
    forall t ensures (t in a <==> t in b) && (t in a && t in b ==> a[t] == b[t]) {
      LabelIs(cx, row, a, t);
      LabelIs(cx, row, b, t);
    }
  }

  lemma {:induction false} LabelIs(cx: Context, row: Row, labels: map<string, string>, t: string)
    requires LabelledBy(cx, row, labels)
    ensures t in labels <==> Tagged(row, "tag_" + t) || t == "dbname" || t in cx.customTags
    ensures t in labels ==>
      (labels[t] == if Tagged(row, "tag_" + t) then cx.format(row["tag_" + t]) else if t == "dbname" then cx.dbName else cx.customTags[t])
  {
    TaggedIs(row, t);
    var k := "tag_" + t;
    assert k[4..] == t;
    assert "tag_dbname" == "tag_" + "dbname";
    hide Tagged;
    if Tagged(row, k) {
      assert k[4..] in labels && labels[k[4..]] == cx.format(row[k]);
    }
  }

  lemma {:induction false} TaggedIs(row: Row, t: string)
    ensures Tagged(row, "tag_" + t) ==> "tag_" + t in row
  {
  }

  lemma {:induction false} ValuesOnce(labels: map<string, string>, keys: seq<string>, values: seq<string>)
    requires ValuesOf(labels, keys, values)
    ensures values == ValuesFor(labels, Sorted(labels.Keys))
  {
    OnlyOne(keys, Sorted(labels.Keys), labels.Keys);
    SortedValues(labels);
    hide Ascending, Lists, ValuesFor;
  }

  lemma {:induction false} HandleIs(cx: Context, base: int, row: Row, k: string, s: Sample)
    requires SampleFrom(cx, base, row, k, s)
    ensures Handle(s) == ShapeIdentity(cx, ShapeOf(cx, row), k) && k in ShapeOf(cx, row).fields
  {
    ExportsField(cx, row, k);
    LabelsInAre(cx, row);
    LabelsRead(cx, row, LabelsIn(cx, row));
    MetaRead(cx, k);
    hide LabelledBy, ValuesOf, AreLabels, LabelsIn, ValuesFor, Join, NameFor, TypeFor, MetaOf, Holds, FieldsOf;
    var labels, keys :| LabelledBy(cx, row, labels) && ValuesOf(labels, keys, s.labelValues);
    LabelledOnce(cx, row, labels, LabelsIn(cx, row));
    ValuesOnce(labels, keys, s.labelValues);
  }

  lemma {:induction false} NewIsNewHandle(cx: Context, base: int, rows: seq<Row>, i: nat, k: string)
    requires i < |rows| && NewIn(cx, Shapes(cx, rows), i, k)
    ensures NewHandle(cx, base, rows, i, k)
  {
    var shapes := Shapes(cx, rows);
    hide SampleFrom, ShapeOf, ShapeIdentity, Handle;
    forall j, f, s, s' | 0 <= j < i && SampleFrom(cx, base, rows[i], k, s) && SampleFrom(cx, base, rows[j], f, s')
      ensures Handle(s) != Handle(s')
    {
      HandleIs(cx, base, rows[i], k, s);
      HandleIs(cx, base, rows[j], f, s');
      assert f in shapes[j].fields;
    }
  }

  lemma {:induction false} FreshIsCell(cx: Context, base: int, rows: seq<Row>, cells: seq<Cell>, i: nat, c: Cell, s: Sample)
    requires CellOfRow(cx, Shapes(cx, rows), i, c) && CellsOf(cx, base, rows, cells) && c in cells && i < |rows|
    requires Eligible(cx, c.field) && Carries(cx, c, s) && IsCell(cx, base, rows[i], c)
    ensures SampleFrom(cx, base, rows[i], c.field, s) && NewIn(cx, Shapes(cx, rows), i, c.field)
  {
    hide CellsOf, Carries, IsCell, NewIn, SampleFrom;
    CellRead(cx, base, rows[i], c, s);
  }

  /**
   * Some column of row `i` with the name of column `k` (the column itself, unless all columns of the metric share one
   * name) has its proper sample among those sent, if the library accepts it.
   */
  ghost predicate HasSample(cx: Context, base: int, rows: seq<Row>, i: nat, k: string, out: seq<Sample>)
    requires i < |rows|
  {
    exists f, s ::
      && ProperSample(cx, base, rows[i], f, s) && NameFor(cx, f) == NameFor(cx, k)
      && (cx.promSource || cx.metricName != "instance_up" ==> f == k)
      && (cx.accepts(s) ==> s in out)
  }

  ghost predicate AllHaveSamples(cx: Context, base: int, rows: seq<Row>, out: seq<Sample>) {
    forall i, k :: 0 <= i < |rows| && Exports(cx, rows[i], k) && NewHandle(cx, base, rows, i, k) ==> HasSample(cx, base, rows, i, k, out)
  }

  lemma {:induction false} RowSample(cx: Context, base: int, row: Row, k: string) returns (s: Sample)
    requires Exports(cx, row, k)
    ensures SampleFrom(cx, base, row, k, s) && Handle(s) == ShapeIdentity(cx, ShapeOf(cx, row), k)
  {
    FieldRead(cx, row, k);
    LabelsInAre(cx, row);
    hide AreLabels, LabelsIn, Exports, Holds;
    var c := Cell(LabelsIn(cx, row), k, FieldsOf(row)[k], TimeOf(cx, base, row));
    assert IsCell(cx, base, row, c);
    CellIs(cx, base, row, c);
    BuildCarries(cx, c);
    CellRead(cx, base, row, c, Build(cx, c));
    s := Build(cx, c);
  }

  lemma {:induction false} ExportsField(cx: Context, row: Row, k: string)
    ensures k in ShapeOf(cx, row).fields <==> Exports(cx, row, k)
  {
    FieldRead(cx, row, k);
    hide FieldsOf, Exports, Eligible, LabelsIn;
  }

  lemma {:induction false} NewHandleIsNew(cx: Context, base: int, rows: seq<Row>, i: nat, k: string)
    requires i < |rows| && Exports(cx, rows[i], k) && NewHandle(cx, base, rows, i, k)
    ensures NewIn(cx, Shapes(cx, rows), i, k)
  {
    var shapes := Shapes(cx, rows);
    ExportsField(cx, rows[i], k);
    hide Exports, ShapeOf, ShapeIdentity, SampleFrom, Handle;
    if TakenBy(cx, shapes, i, ShapeIdentity(cx, shapes[i], k)) {
      var j, f :| 0 <= j < i && f in shapes[j].fields && ShapeIdentity(cx, shapes[j], f) == ShapeIdentity(cx, shapes[i], k);
      ExportsField(cx, rows[j], f);
      var s := RowSample(cx, base, rows[i], k);
      var s' := RowSample(cx, base, rows[j], f);
    }
  }

  lemma {:induction false} NamesTell(cx: Context, f: string, k: string)
    requires NameFor(cx, f) == NameFor(cx, k) && (cx.promSource || cx.metricName != "instance_up")
    ensures f == k
  {
    if !cx.promSource {
      var front := cx.namespace + "_" + cx.metricName + "_";
      assert (front + f)[|front|..] == f && (front + k)[|front|..] == k;
    }
  }

  lemma {:induction false} EmittedHaveSamples(cx: Context, base: int, rows: seq<Row>, cells: seq<Cell>)
    requires CellsOf(cx, base, rows, cells)
    ensures AllHaveSamples(cx, base, rows, Emitted(cx, cells))
  {
    hide *;
    forall i, k | 0 <= i < |rows| && Exports(cx, rows[i], k) && NewHandle(cx, base, rows, i, k)
      ensures HasSample(cx, base, rows, i, k, Emitted(cx, cells))
    {
      NewHandleIsNew(cx, base, rows, i, k);
      var c := FreshFor(cx, base, rows, cells, i, k);
      SampleOfCell(cx, base, rows, cells, i, k, c);
    }
    SamplesIntro(cx, base, rows, Emitted(cx, cells));
  }

  lemma {:induction false} SamplesIntro(cx: Context, base: int, rows: seq<Row>, out: seq<Sample>)
    requires forall i, k :: 0 <= i < |rows| && Exports(cx, rows[i], k) && NewHandle(cx, base, rows, i, k) ==> HasSample(cx, base, rows, i, k, out)
    ensures AllHaveSamples(cx, base, rows, out)
  {
    hide Exports, NewHandle, HasSample;
  }

  lemma {:induction false} SampleOfCell(cx: Context, base: int, rows: seq<Row>, cells: seq<Cell>, i: nat, k: string, c: Cell)
    requires i < |rows| && Exports(cx, rows[i], k) && c in Fresh(cx, cells) && IsCell(cx, base, rows[i], c)
    requires KeyOf(DescOf(cx, c)) == ShapeKey(cx, Shapes(cx, rows)[i], k)
    ensures HasSample(cx, base, rows, i, k, Emitted(cx, cells))
  {
    FreshEligible(cx, cells, c);
    FieldRead(cx, rows[i], k);
    MetaRead(cx, c.field);
    MetaRead(cx, k);
    BuildCarries(cx, c);
    CellRead(cx, base, rows[i], c, Build(cx, c));
    if cx.accepts(Build(cx, c)) {
      EmittedHas(cx, cells, c);
    }
    DescIs(cx, c);
    assert NameFor(cx, c.field) == NameFor(cx, k) by {
      hide MetaOf, NameFor, TypeFor, Join, IsCell, Exports;
    }
    if cx.promSource || cx.metricName != "instance_up" {
      NamesTell(cx, c.field, k);
    }
    hide Emitted, Build, ProperSample, Fresh, MetaOf, NameFor, TypeFor, IsCell, Exports, Carries, SampleFrom;
  }

  lemma {:induction false} FreshEligible(cx: Context, cells: seq<Cell>, c: Cell)
    requires c in Fresh(cx, cells)
    ensures Eligible(cx, c.field) && c in cells
  {
    var before, last := cells[..|cells| - 1], cells[|cells| - 1];
    assert cells == before + [last];
    CellAppend(cx, before, last);
    hide Fresh, Taken, IdentityOf, Sent, Eligible;
    if c in Fresh(cx, before) {
      FreshEligible(cx, before, c);
    }
  }

  /* ---- the first row before its epoch is pinned ---- */

  /** The time of an envelope: the epoch of its first row, or the current time. */
  function EnvelopeTime(row: Row, now: int): int {
    if "epoch_ns" in row && row["epoch_ns"].Int64? then row["epoch_ns"].i else now
  }

  /** Two rows with the same samples. */
  ghost predicate Alike(cx: Context, base: int, row: Row, row': Row) {
    && (forall k :: Exports(cx, row, k) <==> Exports(cx, row', k))
    && (forall k, s :: SampleFrom(cx, base, row, k, s) <==> SampleFrom(cx, base, row', k, s))
    && (forall k, s :: ProperSample(cx, base, row, k, s) <==> ProperSample(cx, base, row', k, s))
  }

  ghost predicate SameTags(row: Row, row': Row) {
    forall k :: (Tagged(row, k) <==> Tagged(row', k)) && (Tagged(row, k) ==> k in row && k in row' && row'[k] == row[k])
  }

  lemma {:induction false} PinnedTags(row: Row, now: int)
    ensures SameTags(row, Pin(row, now)) && SameTags(Pin(row, now), row)
  {
    forall k ensures Tagged(row, k) || Tagged(Pin(row, now), k) ==> k != EPOCH_COLUMN {
      if "tag_" <= k {
        assert k[0] == 't' && EPOCH_COLUMN[0] == 'e';
      }
    }
  }

  lemma {:induction false} LabelsMove(cx: Context, row: Row, row': Row, labels: map<string, string>)
    requires SameTags(row, row') && LabelledBy(cx, row, labels)
    ensures LabelledBy(cx, row', labels)
  {
    hide Tagged;
  }

  lemma {:induction false} LabelsAlike(cx: Context, row: Row, now: int)
    ensures forall labels :: LabelledBy(cx, row, labels) <==> LabelledBy(cx, Pin(row, now), labels)
  {
    hide SameTags, LabelledBy, Pin;
    PinnedTags(row, now);
    forall labels ensures LabelledBy(cx, row, labels) <==> LabelledBy(cx, Pin(row, now), labels) {
      if LabelledBy(cx, row, labels) {
        LabelsMove(cx, row, Pin(row, now), labels);
      }
      if LabelledBy(cx, Pin(row, now), labels) {
        LabelsMove(cx, Pin(row, now), row, labels);
      }
    }
  }

  lemma {:induction false} PinnedAlike(cx: Context, row: Row, now: int)
    ensures Alike(cx, EnvelopeTime(row, now), Pin(row, now), row)
  {
    var row', base := Pin(row, now), EnvelopeTime(row, now);
    assert EPOCH_COLUMN == "epoch_ns";
    LabelsAlike(cx, row, now);
    forall k ensures Exports(cx, row, k) <==> Exports(cx, row', k) {
    }
    assert TimeFor(cx, base, row') == TimeFor(cx, base, row);
    forall values ensures LabelValues(cx, row, values) <==> LabelValues(cx, row', values) {
    }
    hide LabelledBy, NameFor, TypeFor, ValuesOf, LabelValues, TimeFor;
  }

  lemma {:induction false} AlikeRows(cx: Context, base: int, rows: seq<Row>, data: seq<Row>, out: seq<Sample>)
    requires |rows| == |data| && forall i :: 0 <= i < |rows| ==> Alike(cx, base, rows[i], data[i])
    ensures AllFromRows(cx, base, rows, out) ==> AllFromRows(cx, base, data, out)
    ensures AllHaveSamples(cx, base, rows, out) ==> AllHaveSamples(cx, base, data, out)
  {
    hide SampleFrom, ProperSample, Exports, Handle, NameFor;
    if AllFromRows(cx, base, rows, out) {
      forall s | s in out
        ensures exists i, k :: 0 <= i < |data| && SampleFrom(cx, base, data[i], k, s) && NewHandle(cx, base, data, i, k)
      {
        var i, k :| 0 <= i < |rows| && SampleFrom(cx, base, rows[i], k, s) && NewHandle(cx, base, rows, i, k);
        assert Alike(cx, base, rows[i], data[i]);
        StillNew(cx, base, data, rows, i, k);
        assert SampleFrom(cx, base, data[i], k, s);
      }
    }
    if AllHaveSamples(cx, base, rows, out) {
      forall i, k | 0 <= i < |data| && Exports(cx, data[i], k) && NewHandle(cx, base, data, i, k)
        ensures HasSample(cx, base, data, i, k, out)
      {
        assert Alike(cx, base, rows[i], data[i]);
        StillNew(cx, base, rows, data, i, k);
        assert HasSample(cx, base, rows, i, k, out);
        var f, s :| ProperSample(cx, base, rows[i], f, s) && NameFor(cx, f) == NameFor(cx, k)
          && (cx.promSource || cx.metricName != "instance_up" ==> f == k) && (cx.accepts(s) ==> s in out);
        assert ProperSample(cx, base, data[i], f, s);
      }
    }
  }

  lemma {:induction false} StillNew(cx: Context, base: int, rows: seq<Row>, data: seq<Row>, i: nat, k: string)
    requires |rows| == |data| && (forall i :: 0 <= i < |rows| ==> Alike(cx, base, rows[i], data[i]) || Alike(cx, base, data[i], rows[i])) && i < |data|
    requires NewHandle(cx, base, data, i, k)
    ensures NewHandle(cx, base, rows, i, k)
  {
    hide SampleFrom, ProperSample, Exports, Handle;
    forall j, f, s, s' | 0 <= j < i && SampleFrom(cx, base, rows[i], k, s) && SampleFrom(cx, base, rows[j], f, s')
      ensures Handle(s) != Handle(s')
    {
      assert Alike(cx, base, rows[i], data[i]) || Alike(cx, base, data[i], rows[i]);
      assert Alike(cx, base, rows[j], data[j]) || Alike(cx, base, data[j], rows[j]);
      assert SampleFrom(cx, base, data[i], k, s) && SampleFrom(cx, base, data[j], f, s');
    }
  }

  /** The samples of an envelope, in terms of the rows it came with. */
  lemma {:induction false} EnvelopeSamples(cx: Context, data: seq<Row>, now: int, cells: seq<Cell>)
    requires data != [] && CellsOf(cx, EnvelopeTime(data[0], now), data[0 := Pin(data[0], now)], cells)
    ensures AllFromRows(cx, EnvelopeTime(data[0], now), data, Sent(cx, cells))
    ensures AllHaveSamples(cx, EnvelopeTime(data[0], now), data, Emitted(cx, cells))
  {
    hide *;
    var base, rows := EnvelopeTime(data[0], now), data[0 := Pin(data[0], now)];
    forall i | 0 <= i < |rows| ensures Alike(cx, base, rows[i], data[i]) {
      if i == 0 {
        PinnedAlike(cx, data[0], now);
      } else {
        SelfAlike(cx, base, data[i]);
      }
    }
    SentFromRows(cx, base, rows, cells);
    EmittedHaveSamples(cx, base, rows, cells);
    AlikeRows(cx, base, rows, data, Sent(cx, cells));
    AlikeRows(cx, base, rows, data, Emitted(cx, cells));
  }

  lemma {:induction false} SelfAlike(cx: Context, base: int, row: Row)
    ensures Alike(cx, base, row, row)
  {
  }
}
