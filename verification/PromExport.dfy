/**
 * WritePromMetrics as the sink runs it: names, types and descriptors are remembered per envelope
 * instead of being rebuilt for every row, and rows and cells come in any map order.
 */
module PromExport {
  import opened Metrics
  import opened Strings
  import opened SortedKeys
  import opened PromCells
  import opened PromMemo
  import opened PromRows
  import opened PromSamples

  /** Ten minutes, in nanoseconds. */
  const CACHE_TTL := 600 * 1_000_000_000

  lemma {:induction false} IsTagMeans(k: string, v: Value)
    ensures IsTag(k, v) ==> TAG_PREFIX <= k
  {
  }

  lemma {:induction false} PartLabels(cx: Context, part: Row, labels: map<string, string>, k: string, v: Value)
    requires AreLabels(cx, part, labels) && k !in part
    ensures IsTag(k, v) ==> AreLabels(cx, part[k := v], labels[TagOf(k) := cx.format(v)])
    ensures !IsTag(k, v) ==> AreLabels(cx, part[k := v], labels)
  {
    hide IsTag;
    assert IsTag(k, v) ==> TAG_PREFIX <= k by {
      IsTagMeans(k, v);
    }
    forall t ensures k == TAG_PREFIX + t <==> TAG_PREFIX <= k && t == TagOf(k) {
    }
  }

  lemma {:induction false} PartFields(part: Row, k: string, v: Value)
    requires k !in part
    ensures IsField(k, v) ==> FieldsOf(part[k := v]) == FieldsOf(part)[k := Numeric(v)]
    ensures !IsField(k, v) ==> FieldsOf(part[k := v]) == FieldsOf(part)
  {
    hide IsField, Numeric;
  }

  /** The loop over the columns of a row, in any order. */
  method ParseRow(cx: Context, base: int, row: Row) returns (labels: map<string, string>, fields: map<string, real>, at: int)
    ensures AreLabels(cx, row, labels)
    ensures fields == FieldsOf(row)
    ensures at == TimeOf(cx, base, row)
    ensures LabelledBy(cx, row, labels) && at == TimeFor(cx, base, row)
    ensures forall k :: k in fields <==> NumericColumn(row, k)
    ensures forall k :: k in fields ==> k in row && Holds(row[k], fields[k])
  {
    labels := cx.customTags[DBNAME_LABEL := cx.dbName];
    fields := map[];
    at := base;
    var todo := row.Keys;
    ghost var part: Row := map[];
    while todo != {}
      invariant todo <= row.Keys && part == map k | k in row && k !in todo :: row[k]
      invariant AreLabels(cx, part, labels) && fields == FieldsOf(part) && at == TimeOf(cx, base, part)
      decreases |todo|
    {
      var k :| k in todo;
      var v := row[k];
      PartLabels(cx, part, labels, k, v);
      PartFields(part, k, v);
      hide AreLabels, FieldsOf;
      ghost var part' := part[k := v];
      if k == EPOCH_COLUMN {
        if cx.promSource && v.Int64? && v.i != 0 {
          at := v.i;
        }
      } else if Blank(v) {
      } else if TAG_PREFIX <= k {
        labels := labels[TagOf(k) := cx.format(v)];
      } else if v.Int64? || v.Int? || v.Float? || v.Bool? {
        fields := fields[k := Numeric(v)];
      }
      todo := todo - {k};
      part := part';
    }
    assert part == row;
    RowRead(cx, row, labels);
  }

  lemma {:induction false} RowRead(cx: Context, row: Row, labels: map<string, string>)
    requires AreLabels(cx, row, labels)
    ensures LabelledBy(cx, row, labels)
    ensures forall k :: k in FieldsOf(row) <==> NumericColumn(row, k)
    ensures forall k :: k in FieldsOf(row) ==> k in row && Holds(row[k], FieldsOf(row)[k])
    ensures forall base :: TimeFor(cx, base, row) == TimeOf(cx, base, row)
  {
    hide AreLabels, LabelledBy, NumericColumn, Holds;
    LabelsRead(cx, row, labels);
    forall k ensures (k in FieldsOf(row) <==> NumericColumn(row, k)) && (k in FieldsOf(row) ==> k in row && Holds(row[k], FieldsOf(row)[k])) {
      FieldRead(cx, row, k);
    }
  }

  datatype State = State(
    seen: set<string>,
    metas: map<string, Meta>,
    descs: map<(string, string), Desc>,
    out: seq<Sample>,
    written: nat,
    errors: nat)

  ghost predicate MetasOk(cx: Context, metas: map<string, Meta>) {
    forall f :: f in metas ==> Eligible(cx, f) && metas[f] == MetaOf(cx, f)
  }

  /** Names and types remembered are those that would be built; descriptors are the first built under their key. */
  ghost predicate Faithful(cx: Context, cells: seq<Cell>, st: State) {
    && st.seen == Taken(cx, cells)
    && MetasOk(cx, st.metas)
    && st.descs == Memo(cx, Fresh(cx, cells))
    && st.out == Sent(cx, cells)
    && st.written == |st.out| && st.written + st.errors == EligibleCount(cx, cells)
  }

  method MetaFor(cx: Context, metas: map<string, Meta>, field: string) returns (meta: Meta, metas': map<string, Meta>)
    requires MetasOk(cx, metas) && Eligible(cx, field)
    ensures meta == MetaOf(cx, field) && MetasOk(cx, metas')
  {
    if field in metas {
      return metas[field], metas;
    }
    if cx.promSource {
      meta := Meta(field, Untyped);
    } else {
      var valueType := Counter;
      if cx.metricName == INSTANCE_UP || (|cx.gauges| > 0 && (cx.gauges[0] == "*" || field in cx.gauges)) {
        valueType := Gauge;
      }
      var fqName := cx.namespace + "_" + cx.metricName;
      if cx.metricName != INSTANCE_UP {
        fqName := cx.namespace + "_" + cx.metricName + "_" + field;
      }
      meta := Meta(fqName, valueType);
    }
    metas' := metas[field := meta];
  }

  /** The descriptor remembered under the key, or a new one, which is then remembered. */
  method DescFor(cx: Context, descs: map<(string, string), Desc>, fqName: string, keys: seq<string>, joinedKeys: string)
    returns (desc: Desc, descs': map<(string, string), Desc>)
    requires joinedKeys == Join(keys, KEY_SEPARATOR)
    ensures var d := Desc(fqName, cx.metricName, keys);
      && desc == (if KeyOf(d) in descs then descs[KeyOf(d)] else d)
      && descs' == (if KeyOf(d) in descs then descs else descs[KeyOf(d) := d])
  {
    hide Join;
    if (fqName, joinedKeys) in descs {
      return descs[(fqName, joinedKeys)], descs;
    }
    desc := Desc(fqName, cx.metricName, keys);
    descs' := descs[(fqName, joinedKeys) := desc];
  }

  /** One numeric cell. */
  method WriteCell(cx: Context, st: State, keys: seq<string>, values: seq<string>, joinedValues: string, joinedKeys: string,
                   c: Cell, ghost cells: seq<Cell>) returns (st': State)
    requires Faithful(cx, cells, st)
    requires keys == Sorted(c.labels.Keys) && values == ValuesFor(c.labels, keys)
    requires joinedValues == Join(values, "_") && joinedKeys == Join(keys, KEY_SEPARATOR)
    ensures Faithful(cx, cells + [c], st')
  {
    CellAppend(cx, cells, c);
    MemoAppend(cx, Fresh(cx, cells), c);
    BuildIs(cx, c);
    hide Taken, Sent, MetasOk, Join, Build, IdentityOf, MetaOf, EligibleCount, Fresh, Memo, KeyOf;
    st' := st;
    if cx.promSource && c.field != cx.metricName {
      return;
    }
    var meta, metas := MetaFor(cx, st.metas, c.field);
    st' := st'.(metas := metas);
    var identity := meta.fqName + "_" + joinedValues;
    if identity in st.seen {
      st' := st'.(errors := st.errors + 1);
      return;
    }
    var desc, descs := DescFor(cx, st.descs, meta.fqName, keys, joinedKeys);
    st' := st'.(seen := st.seen + {identity}, descs := descs);
    var sample := Sample(desc, meta.valueType, c.value, values, c.at);
    if !cx.accepts(sample) {
      st' := st'.(errors := st.errors + 1);
      return;
    }
    st' := st'.(out := st.out + [sample], written := st.written + 1);
  }

  lemma {:induction false} BuildIs(cx: Context, c: Cell)
    ensures var keys, meta := Sorted(c.labels.Keys), MetaOf(cx, c.field);
      && Build(cx, c) == Sample(Desc(meta.fqName, cx.metricName, keys), meta.valueType, c.value, ValuesFor(c.labels, keys), c.at)
      && IdentityOf(cx, c) == meta.fqName + "_" + Join(ValuesFor(c.labels, keys), "_")
  {
    hide Join, MetaOf;
  }

  /** One row: its columns are sorted out and every numeric one is written, in any order. */
  method WriteRow(cx: Context, base: int, row: Row, st: State, ghost cells: seq<Cell>) returns (st': State, ghost more: seq<Cell>)
    requires Faithful(cx, cells, st)
    ensures Faithful(cx, cells + more, st')
    ensures CellsFor(cx, base, row, FieldsOf(row).Keys, more)
  {
    hide Faithful, CellsFor, AreLabels, Ascending, Lists, Join, FieldsOf, ValuesFor, TimeOf;
    var labels, fields, at := ParseRow(cx, base, row);
    var keys := SortKeys(labels.Keys);
    OnlyOne(keys, Sorted(labels.Keys), labels.Keys);
    var values := ValuesFor(labels, keys);
    var joinedValues, joinedKeys := Join(values, "_"), Join(keys, KEY_SEPARATOR);
    st', more := st, [];
    NoCells(cx, base, row);
    assert cells + [] == cells;
    var todo := fields.Keys;
    while todo != {}
      invariant todo <= fields.Keys
      invariant Faithful(cx, cells + more, st')
      invariant CellsFor(cx, base, row, fields.Keys - todo, more)
      decreases |todo|
    {
      var f :| f in todo;
      var c := Cell(labels, f, fields[f], at);
      CellsForMore(cx, base, row, fields.Keys - todo, more, c);
      st' := WriteCell(cx, st', keys, values, joinedValues, joinedKeys, c, cells + more);
      assert cells + more + [c] == cells + (more + [c]);
      assert fields.Keys - (todo - {f}) == fields.Keys - todo + {f};
      more := more + [c];
      todo := todo - {f};
    }
    assert fields.Keys - todo == fields.Keys;
  }

  predicate Stale(base: int, now: int) {
    base < now - CACHE_TTL
  }

  /** What an envelope that is not stale leaves on the channel, in terms of its rows after pinning. */
  ghost predicate Exported(cx: Context, base: int, rows: seq<Row>, out: seq<Sample>, written: nat, errors: nat, cells: seq<Cell>) {
    && CellsOf(cx, base, rows, cells)
    && out == Sent(cx, cells)
    && written == |out| && written + errors == EligibleCount(cx, cells)
    && (!cx.promSource ==> written + errors == NumericCells(rows))
  }

  /**
   * The exporter. It sends what building every sample anew sends if the label names of the envelope, which
   * are the source's own tags and the tag columns, hold no separator; and in general exactly if no two rows
   * meet under one remembered descriptor with different label names, provided that the library accepts the
   * samples built anew. Every sample is one column of one row: its number, name, type, label values and time;
   * and every exported column whose sample is new has its own, unless the library refuses it.
   */
  method WritePromMetrics(cx: Context, data: seq<Row>, now: int)
    returns (out: seq<Sample>, written: nat, errors: nat, purged: bool, ghost cells: seq<Cell>)
    ensures data == [] ==> out == [] && written == 0 && errors == 0 && !purged
    ensures data != [] ==>
        var first := Pin(data[0], now);
        var base := first[EPOCH_COLUMN].i;
        && purged == Stale(base, now)
        && (purged ==> out == [] && written == 0 && errors == 0)
        && (!purged ==> Exported(cx, base, data[0 := first], out, written, errors, cells))
    ensures data != [] ==> (purged <==> EnvelopeTime(data[0], now) < now - 600_000_000_000)
    ensures data != [] ==> AllFromRows(cx, EnvelopeTime(data[0], now), data, out)
    ensures data != [] && !purged && (RowsApart(cx, Shapes(cx, data)) || SeparatorFreeIn(cx, data)) ==>
        AllHaveSamples(cx, EnvelopeTime(data[0], now), data, out)
    ensures RowsApart(cx, Shapes(cx, data)) ==> out == Emitted(cx, cells)
    ensures SeparatorFreeIn(cx, data) ==> out == Emitted(cx, cells)
    ensures !purged && BuiltAccepted(cx, cells) ==> (out == Emitted(cx, cells) <==> RowsApart(cx, Shapes(cx, data)))
  {
    hide *;
    out, written, errors, purged, cells := [], 0, 0, false, [];
    NothingSent(cx);
    if |data| == 0 {
      return;
    }
    PinKeepsShapes(cx, data, now);
    Pins(data[0], now);
    var first := Pin(data[0], now);
    var base := first[EPOCH_COLUMN].i;
    if base < now - CACHE_TTL {
      purged := true;
      return;
    }
    var st: State;
    st, cells := WriteRows(cx, base, data[0 := first]);
    out, written, errors := st.out, st.written, st.errors;
    Done(cx, base, data[0 := first], st, cells);
    if SeparatorFreeIn(cx, data) {
      FreeRowsApart(cx, data);
    }
    ExportedIs(cx, base, data[0 := first], out, written, errors, cells);
    EnvelopeSamples(cx, data, now, cells);
  }

  /** The loop over the rows of an envelope. */
  method WriteRows(cx: Context, base: int, rows: seq<Row>) returns (st: State, ghost cells: seq<Cell>)
    ensures Faithful(cx, cells, st) && CellsOf(cx, base, rows, cells)
  {
    hide *;
    st, cells := State({}, map[], map[], [], 0, 0), [];
    Begin(cx, base, rows, st);
    for i := 0 to |rows|
      invariant Faithful(cx, cells, st) && CellsOf(cx, base, rows[..i], cells)
    {
      ghost var more: seq<Cell>;
      st, more := WriteRow(cx, base, rows[i], st, cells);
      CellsOfMore(cx, base, rows, i, cells, more);
      cells := cells + more;
    }
    assert rows[..|rows|] == rows;
  }

  lemma {:induction false} Pins(row: Row, now: int)
    ensures HasEpoch(Pin(row, now)) && EPOCH_COLUMN in Pin(row, now) && Pin(row, now)[EPOCH_COLUMN] == Int64(EnvelopeTime(row, now))
    ensures Stale(EnvelopeTime(row, now), now) <==> EnvelopeTime(row, now) < now - CACHE_TTL
    ensures CACHE_TTL == 600_000_000_000
  {
  }

  lemma {:induction false} NothingSent(cx: Context)
    ensures Emitted(cx, []) == [] && RowsApart(cx, Shapes(cx, []))
    ensures forall base, rows :: AllFromRows(cx, base, rows, [])
  {
  }

  lemma {:induction false} Begin(cx: Context, base: int, rows: seq<Row>, st: State)
    requires st == State({}, map[], map[], [], 0, 0)
    ensures Faithful(cx, [], st) && CellsOf(cx, base, rows[..0], [])
  {
  }

  lemma {:induction false} Done(cx: Context, base: int, rows: seq<Row>, st: State, cells: seq<Cell>)
    requires Faithful(cx, cells, st) && CellsOf(cx, base, rows, cells)
    ensures Exported(cx, base, rows, st.out, st.written, st.errors, cells)
    ensures RowsApart(cx, Shapes(cx, rows)) ==> st.out == Emitted(cx, cells)
    ensures BuiltAccepted(cx, cells) ==> (st.out == Emitted(cx, cells) <==> RowsApart(cx, Shapes(cx, rows)))
  {
    CellCount(cx, base, rows, cells);
    if !cx.promSource {
      EligibleAll(cx, cells);
    }
    hide Sent, Emitted, Taken, Memo, CellsOf, EligibleCount, RowsApart, NoClash, Shapes, Fresh, BuiltAccepted;
    NoClashIff(cx, base, rows, cells);
    if RowsApart(cx, Shapes(cx, rows)) {
      SentIsEmitted(cx, cells);
    }
    if BuiltAccepted(cx, cells) {
      SentIsEmittedIff(cx, cells);
    }
  }

  /* ---- a separator in a tag column ---- */

  /** A database source without tags of its own; the library compares the numbers of names and values. */
  function PlainSource(): Context {
    Context("pgwatch", [], "d", "m", false, map[], (v: Value) => if v.Text? then v.s else "", (s: Sample) => |s.labelValues| == |s.desc.labelKeys|)
  }

  function PlainRow(): Row {
    map["tag_a" := Text("1"), "tag_b" := Text("2"), "x" := Int64(1)]
  }

  function SeparatorRow(): Row {
    map["tag_a\U{00FF}b" := Text("3"), "x" := Int64(2)]
  }

  /** The text after the prefix of a tag column is all that matters. */
  lemma {:induction false} TagColumn(t: string, u: string)
    ensures TAG_PREFIX + t == TAG_PREFIX + u <==> t == u
    ensures TAG_PREFIX + t != "x" && TAG_PREFIX + t != EPOCH_COLUMN
  {
    assert (TAG_PREFIX + t)[|TAG_PREFIX|..] == t && (TAG_PREFIX + u)[|TAG_PREFIX|..] == u;
    assert (TAG_PREFIX + t)[0] == 't' && EPOCH_COLUMN[0] == 'e' && "x"[0] == 'x';
  }

  lemma {:induction false} PlainLabels(now: int)
    ensures AreLabels(PlainSource(), Pin(PlainRow(), now), map["a" := "1", "b" := "2", "dbname" := "d"])
  {
    assert "tag_a" == TAG_PREFIX + "a" && "tag_b" == TAG_PREFIX + "b";
    assert IsTag("tag_a", Text("1")) && IsTag("tag_b", Text("2"));
    forall t ensures TAG_PREFIX + t in Pin(PlainRow(), now) <==> t == "a" || t == "b" {
      TagColumn(t, "a");
      TagColumn(t, "b");
    }
  }

  lemma {:induction false} SeparatorLabels()
    ensures AreLabels(PlainSource(), SeparatorRow(), map["a\U{00FF}b" := "3", "dbname" := "d"])
  {
    assert "tag_a\U{00FF}b" == TAG_PREFIX + "a\U{00FF}b";
    assert IsTag("tag_a\U{00FF}b", Text("3"));
    forall t ensures TAG_PREFIX + t in SeparatorRow() <==> t == "a\U{00FF}b" {
      TagColumn(t, "a\U{00FF}b");
    }
  }

  lemma {:induction false} OneField(now: int)
    ensures FieldsOf(Pin(PlainRow(), now)).Keys == {"x"} && FieldsOf(SeparatorRow()).Keys == {"x"}
  {
    assert IsField("x", Int64(1)) && IsField("x", Int64(2));
    assert TAG_PREFIX <= "tag_a" && TAG_PREFIX <= "tag_b" && TAG_PREFIX <= "tag_a\U{00FF}b";
  }

  lemma {:induction false} OneCell(cx: Context, base: int, row: Row, labels: map<string, string>, cells: seq<Cell>)
    requires CellsFor(cx, base, row, FieldsOf(row).Keys, cells) && FieldsOf(row).Keys == {"x"} && AreLabels(cx, row, labels)
    ensures |cells| == 1 && cells[0] == Cell(labels, "x", cells[0].value, cells[0].at)
  {
    hide AreLabels, FieldsOf;
    assert IsCell(cx, base, row, cells[0]);
    LabelsUnique(cx, row, labels, cells[0].labels);
  }

  lemma {:induction false} ClashingCells(base: int, now: int, cells: seq<Cell>)
    requires CellsOf(PlainSource(), base, [Pin(PlainRow(), now), SeparatorRow()], cells)
    ensures |cells| == 2 && cells == [cells[0], cells[1]]
    ensures cells[0] == PlainCell(cells[0].value, cells[0].at) && cells[1] == SeparatorCell(cells[1].value, cells[1].at)
  {
    hide *;
    var cx, rows := PlainSource(), [Pin(PlainRow(), now), SeparatorRow()];
    assert rows[..1] == [Pin(PlainRow(), now)] && rows[..1][..0] == [];
    OneField(now);
    PlainLabels(now);
    SeparatorLabels();
    var a, b := LastCells(cx, base, rows, cells);
    var a', b' := LastCells(cx, base, rows[..1], a);
    FirstCells(cx, base, a');
    OneCell(cx, base, rows[1], map["a\U{00FF}b" := "3", "dbname" := "d"], b);
    OneCell(cx, base, rows[0], map["a" := "1", "b" := "2", "dbname" := "d"], b');
    CellsAre(b'[0], b[0]);
  }

  lemma {:induction false} FirstCells(cx: Context, base: int, cells: seq<Cell>)
    requires CellsOf(cx, base, [], cells)
    ensures cells == []
  {
  }

  lemma {:induction false} CellsAre(c: Cell, c': Cell)
    ensures c == Cell(map["a" := "1", "b" := "2", "dbname" := "d"], "x", c.value, c.at) ==> c == PlainCell(c.value, c.at)
    ensures c' == Cell(map["a\U{00FF}b" := "3", "dbname" := "d"], "x", c'.value, c'.at) ==> c' == SeparatorCell(c'.value, c'.at)
  {
  }

  lemma {:induction false} SecondIsLost(base: int, now: int, out: seq<Sample>, written: nat, errors: nat, cells: seq<Cell>)
    requires Exported(PlainSource(), base, [Pin(PlainRow(), now), SeparatorRow()], out, written, errors, cells)
    ensures written == |out| == 1 && errors == 1
    ensures |Emitted(PlainSource(), cells)| == 2 && out == Emitted(PlainSource(), cells)[..1]
  {
    hide *;
    var cx := PlainSource();
    ExportedIs(cx, base, [Pin(PlainRow(), now), SeparatorRow()], out, written, errors, cells);
    ClashingCells(base, now, cells);
    SourceIs();
    EligibleAll(cx, cells);
    SeparatorInNameClashes(cx, cells[0], cells[1]);
  }

  lemma {:induction false} SourceIs()
    ensures !PlainSource().promSource && forall s :: PlainSource().accepts(s) <==> |s.labelValues| == |s.desc.labelKeys|
  {
  }

  lemma {:induction false} ExportedIs(cx: Context, base: int, rows: seq<Row>, out: seq<Sample>, written: nat, errors: nat, cells: seq<Cell>)
    requires Exported(cx, base, rows, out, written, errors, cells)
    ensures CellsOf(cx, base, rows, cells) && out == Sent(cx, cells) && written == |out| && written + errors == EligibleCount(cx, cells)
  {
    hide CellsOf, Sent, EligibleCount, NumericCells;
  }

  lemma {:induction false} PinnedRows(now: int)
    ensures var data := [PlainRow(), SeparatorRow()];
      && data[0] == PlainRow() && data[0 := Pin(data[0], now)] == [Pin(PlainRow(), now), SeparatorRow()]
      && EPOCH_COLUMN in Pin(PlainRow(), now) && Pin(PlainRow(), now)[EPOCH_COLUMN] == Int64(now) && !Stale(now, now)
  {
    hide SeparatorRow;
  }

  /** The exporter loses the second of two rows, which building its sample anew would send. */
  method SeparatorInTagColumn(now: int) returns (out: seq<Sample>, written: nat, errors: nat, ghost cells: seq<Cell>)
    ensures written == |out| == 1 && errors == 1
    ensures |Emitted(PlainSource(), cells)| == 2 && out == Emitted(PlainSource(), cells)[..1]
    ensures CellsOf(PlainSource(), now, [Pin(PlainRow(), now), SeparatorRow()], cells)
  {
    hide *;
    var purged: bool;
    PinnedRows(now);
    out, written, errors, purged, cells := WritePromMetrics(PlainSource(), [PlainRow(), SeparatorRow()], now);
    SecondIsLost(now, now, out, written, errors, cells);
    ExportedIs(PlainSource(), now, [Pin(PlainRow(), now), SeparatorRow()], out, written, errors, cells);
  }
}
