/**
 * What the Prometheus sink makes of one envelope, said the simple way: every numeric cell becomes a
 * sample built from scratch, and a sample is left out when its identity was already taken.
 */
module PromCells {
  import opened Metrics
  import opened Strings
  import opened SortedKeys

  const DBNAME_LABEL := "dbname"
  const KEY_SEPARATOR := "\U{00FF}"

  type Row = map<string, Value>

  datatype ValueType = Counter | Gauge | Untyped

  datatype Meta = Meta(fqName: string, valueType: ValueType)

  datatype Desc = Desc(fqName: string, help: string, labelKeys: seq<string>)

  datatype Sample = Sample(desc: Desc, valueType: ValueType, value: real, labelValues: seq<string>, at: int)

  /** The envelope and the exporter's settings; the library decides which samples it accepts. */
  datatype Context = Context(
    namespace: string,
    gauges: seq<string>,
    dbName: string,
    metricName: string,
    promSource: bool,
    customTags: map<string, string>,
    format: Value -> string,
    accepts: Sample -> bool)

  predicate Blank(v: Value) {
    v.Null? || (v.Text? && v.s == "")
  }

  predicate IsTag(k: string, v: Value) {
    k != EPOCH_COLUMN && !Blank(v) && TAG_PREFIX <= k
  }

  predicate IsField(k: string, v: Value) {
    k != EPOCH_COLUMN && !Blank(v) && !(TAG_PREFIX <= k) && (v.Int64? || v.Int? || v.Float? || v.Bool?)
  }

  function Numeric(v: Value): real {
    match v {
      case Int64(i) => i as real
      case Int(n) => n as real
      case Float(r) => r
      case Bool(b) => if b then 1.0 else 0.0
      case _ => 0.0
    }
  }

  function TagOf(k: string): string
    requires TAG_PREFIX <= k
  {
    k[|TAG_PREFIX|..]
  }

  /** A label is the tag column of the row, or else what the source gives every row. */
  ghost predicate LabelOf(cx: Context, row: Row, tag: string, value: string) {
    var k := TAG_PREFIX + tag;
    if k in row && IsTag(k, row[k]) then value == cx.format(row[k])
    else if tag == DBNAME_LABEL then value == cx.dbName
    else tag in cx.customTags && value == cx.customTags[tag]
  }

  ghost predicate HasLabel(cx: Context, row: Row, tag: string) {
    var k := TAG_PREFIX + tag;
    (k in row && IsTag(k, row[k])) || tag == DBNAME_LABEL || tag in cx.customTags
  }

  ghost predicate AreLabels(cx: Context, row: Row, labels: map<string, string>) {
    && (forall t :: t in labels <==> HasLabel(cx, row, t))
    && (forall t :: t in labels ==> LabelOf(cx, row, t, labels[t]))
  }

  lemma {:induction false} LabelsUnique(cx: Context, row: Row, labels: map<string, string>, labels': map<string, string>)
    requires AreLabels(cx, row, labels) && AreLabels(cx, row, labels')
    ensures labels == labels'
  {
    assert forall t :: t in labels <==> t in labels';
    forall t | t in labels ensures labels[t] == labels'[t] {
      assert LabelOf(cx, row, t, labels[t]) && LabelOf(cx, row, t, labels'[t]);
    }
  }

  function FieldsOf(row: Row): map<string, real> {
    map k | k in row && IsField(k, row[k]) :: Numeric(row[k])
  }

  /** Rows of a Prometheus source carry their own time. */
  function TimeOf(cx: Context, base: int, row: Row): int {
    if cx.promSource && EPOCH_COLUMN in row && row[EPOCH_COLUMN].Int64? && row[EPOCH_COLUMN].i != 0 then row[EPOCH_COLUMN].i
    else base
  }

  /** One numeric cell with the labels and the time of its row. */
  datatype Cell = Cell(labels: map<string, string>, field: string, value: real, at: int)

  /** Only the family's own column of a Prometheus source is exported. */
  predicate Eligible(cx: Context, field: string) {
    !cx.promSource || field == cx.metricName
  }

  function MetaOf(cx: Context, field: string): Meta {
    if cx.promSource then Meta(field, Untyped)
    else
      Meta(
        if cx.metricName == INSTANCE_UP then cx.namespace + "_" + cx.metricName
        else cx.namespace + "_" + cx.metricName + "_" + field,
        if cx.metricName == INSTANCE_UP || (|cx.gauges| > 0 && (cx.gauges[0] == "*" || field in cx.gauges)) then Gauge
        else Counter)
  }

  function ValuesFor(labels: map<string, string>, keys: seq<string>): seq<string> {
    if keys == [] then []
    else ValuesFor(labels, keys[..|keys| - 1]) + [if keys[|keys| - 1] in labels then labels[keys[|keys| - 1]] else ""]
  }

  /** The sample of a cell, built from scratch. */
  ghost function Build(cx: Context, c: Cell): Sample {
    var keys := Sorted(c.labels.Keys);
    var meta := MetaOf(cx, c.field);
    Sample(Desc(meta.fqName, cx.metricName, keys), meta.valueType, c.value, ValuesFor(c.labels, keys), c.at)
  }

  function Identity(fqName: string, values: seq<string>): string {
    fqName + "_" + Join(values, "_")
  }

  ghost function IdentityOf(cx: Context, c: Cell): string {
    Identity(Build(cx, c).desc.fqName, Build(cx, c).labelValues)
  }

  /** The identities taken by the cells so far. */
  ghost function Taken(cx: Context, cells: seq<Cell>): set<string> {
    if cells == [] then {}
    else
      var k := |cells| - 1;
      if Eligible(cx, cells[k].field) then Taken(cx, cells[..k]) + {IdentityOf(cx, cells[k])} else Taken(cx, cells[..k])
  }

  /** The samples sent for the cells. */
  ghost function Emitted(cx: Context, cells: seq<Cell>): seq<Sample> {
    if cells == [] then []
    else
      var k := |cells| - 1;
      var before := Emitted(cx, cells[..k]);
      if Eligible(cx, cells[k].field) && IdentityOf(cx, cells[k]) !in Taken(cx, cells[..k]) && cx.accepts(Build(cx, cells[k]))
      then before + [Build(cx, cells[k])]
      else before
  }

  function EligibleCount(cx: Context, cells: seq<Cell>): nat {
    if cells == [] then 0 else EligibleCount(cx, cells[..|cells| - 1]) + if Eligible(cx, cells[|cells| - 1].field) then 1 else 0
  }

  lemma {:induction false} EligibleAll(cx: Context, cells: seq<Cell>)
    requires !cx.promSource
    ensures EligibleCount(cx, cells) == |cells|
  {
    if cells != [] {
      EligibleAll(cx, cells[..|cells| - 1]);
    }
  }
}
