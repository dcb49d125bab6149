/** The row source handed to COPY: a two-level cursor over envelopes. */
module CopyCursor {
  import opened Metrics

  /** A row, named by its envelope and its index in that envelope. */
  datatype Place = Place(env: nat, row: nat)

  /** Every metric has a name: the cursor uses the empty name for "no metric yet". */
  predicate NamesSet(envs: seq<Envelope>) {
    forall k :: 0 <= k < |envs| ==> envs[k].metricName != ""
  }

  /** First index from `i` on whose metric is not `name`. */
  function RunEnd(envs: seq<Envelope>, name: string, i: nat): (j: nat)
    requires i <= |envs|
    ensures i <= j <= |envs|
    ensures forall k :: i <= k < j ==> envs[k].metricName == name
    ensures j < |envs| ==> envs[j].metricName != name
    decreases |envs| - i
  {
    if i < |envs| && envs[i].metricName == name then RunEnd(envs, name, i + 1) else i
  }

  /** Rows `m..` of envelope `e`. */
  function RowsFrom(envs: seq<Envelope>, e: nat, m: nat): (r: seq<Place>)
    requires e < |envs|
    decreases |envs[e].data| - m
  {
    if m < |envs[e].data| then [Place(e, m)] + RowsFrom(envs, e, m + 1) else []
  }

  /** All rows of envelopes `lo..hi`, in order. */
  function Rows(envs: seq<Envelope>, lo: nat, hi: nat): (r: seq<Place>)
    requires lo <= hi <= |envs|
    decreases hi - lo
  {
    if lo == hi then [] else RowsFrom(envs, lo, 0) + Rows(envs, lo + 1, hi)
  }

  /** A position: current envelope, current row in it, and the metric being copied ("" between metrics). */
  datatype Pos = Pos(env: int, row: int, metric: string)

  ghost predicate ValidPos(envs: seq<Envelope>, p: Pos) {
    && NamesSet(envs)
    && -1 <= p.env <= |envs|
    && -1 <= p.row
    && (p.env == -1 ==> p.metric == "")
    && (0 <= p.env < |envs| ==>
          if p.metric == "" then p.row + 1 >= |envs[p.env].data|
          else envs[p.env].metricName == p.metric && p.row <= |envs[p.env].data|)
  }

  /** The envelope entered next; the number of envelopes when there is none. */
  ghost function NextStart(envs: seq<Envelope>, p: Pos): nat
    requires ValidPos(envs, p)
  {
    if p.env < |envs| then p.env + 1 else |envs|
  }

  /** Where the run of the current metric (or of the next one, between metrics) ends. */
  ghost function EndOf(envs: seq<Envelope>, p: Pos): (end: nat)
    requires ValidPos(envs, p)
    ensures NextStart(envs, p) <= end <= |envs|
  {
    var at := NextStart(envs, p);
    if p.metric != "" then RunEnd(envs, p.metric, at)
    else if at == |envs| then at
    else RunEnd(envs, envs[at].metricName, at)
  }

  /** The rows that remain to be drawn before the current run ends. */
  ghost function PendingOf(envs: seq<Envelope>, p: Pos): seq<Place>
    requires ValidPos(envs, p)
  {
    var rest := Rows(envs, NextStart(envs, p), EndOf(envs, p));
    if p.metric == "" || p.env == |envs| then rest else RowsFrom(envs, p.env, p.row + 1) + rest
  }

  /** The metric whose run `p` is in, or is about to enter. */
  ghost function RunMetric(envs: seq<Envelope>, p: Pos): string
    requires ValidPos(envs, p)
  {
    var at := NextStart(envs, p);
    if p.metric != "" || at == |envs| then p.metric else envs[at].metricName
  }

  /** `q` is in the same run as `p`, with the same rows still to come. */
  ghost predicate SameRun(envs: seq<Envelope>, p: Pos, q: Pos) {
    && ValidPos(envs, p) && ValidPos(envs, q)
    && PendingOf(envs, q) == PendingOf(envs, p)
    && EndOf(envs, q) == EndOf(envs, p)
    && (q == p || q.metric == RunMetric(envs, p) != "")
  }

  /** `q` is `p` with its first pending row drawn. */
  ghost predicate Drawn(envs: seq<Envelope>, p: Pos, q: Pos) {
    && ValidPos(envs, p) && ValidPos(envs, q)
    && 0 <= q.env < |envs| && 0 <= q.row < |envs[q.env].data|
    && PendingOf(envs, p) == [Place(q.env, q.row)] + PendingOf(envs, q)
    && EndOf(envs, q) == EndOf(envs, p)
    && q.metric == RunMetric(envs, p) != ""
  }

  /** `p` had nothing left and `q` stands between metrics, at the end of that run. */
  ghost predicate Left(envs: seq<Envelope>, p: Pos, q: Pos) {
    && ValidPos(envs, p) && AtHead(envs, q, EndOf(envs, p))
    && PendingOf(envs, p) == []
  }

  /** Between metrics, about to enter the run that starts at `b`; past the last envelope if there is none. */
  ghost predicate AtHead(envs: seq<Envelope>, p: Pos, b: nat) {
    && ValidPos(envs, p) && NextStart(envs, p) == b
    && (p.env == |envs| <==> b == |envs|)
    && (p.metric == "" || p.env == |envs|)
  }

  /** At the end of an envelope the next one of the same metric holds the rest. */
  lemma {:induction false} BeforeEnvelope(envs: seq<Envelope>, q: Pos)
    requires ValidPos(envs, q) && q.env + 1 < |envs|
    requires q.env >= 0 ==> q.row + 1 >= |envs[q.env].data|
    requires q.metric == "" || q.metric == envs[q.env + 1].metricName
    ensures var b, name := q.env + 1, envs[q.env + 1].metricName;
            && EndOf(envs, q) == RunEnd(envs, name, b) && PendingOf(envs, q) == Rows(envs, b, RunEnd(envs, name, b))
            && RunMetric(envs, q) == name != ""
  {
    hide Rows, RunEnd;
    if q.metric != "" {
      assert RowsFrom(envs, q.env, q.row + 1) == [];
    }
  }

  lemma {:induction false} InEnvelope(envs: seq<Envelope>, b: nat)
    requires NamesSet(envs) && b < |envs|
    ensures var name := envs[b].metricName;
            && ValidPos(envs, Pos(b, -1, name)) && name != ""
            && EndOf(envs, Pos(b, -1, name)) == RunEnd(envs, name, b + 1)
            && PendingOf(envs, Pos(b, -1, name)) == RowsFrom(envs, b, 0) + Rows(envs, b + 1, RunEnd(envs, name, b + 1))
  {
    hide Rows, RunEnd, RowsFrom;
  }

  /** Entering the next envelope of the same run changes neither the rows to come nor the run's end. */
  lemma {:induction false} EnterEnvelope(envs: seq<Envelope>, p: Pos, q: Pos)
    requires SameRun(envs, p, q) && q.env + 1 < |envs|
    requires q.env >= 0 ==> q.row + 1 >= |envs[q.env].data|
    requires q.metric == "" || q.metric == envs[q.env + 1].metricName
    ensures SameRun(envs, p, Pos(q.env + 1, -1, envs[q.env + 1].metricName))
  {
    hide Rows, RunEnd, RowsFrom, PendingOf, EndOf, RunMetric, NextStart;
    var b, name := q.env + 1, envs[q.env + 1].metricName;
    BeforeEnvelope(envs, q);
    InEnvelope(envs, b);
    RowsFirst(envs, b);
  }

  lemma {:induction false} RowsFirst(envs: seq<Envelope>, b: nat)
    requires b < |envs|
    ensures var end := RunEnd(envs, envs[b].metricName, b);
            end == RunEnd(envs, envs[b].metricName, b + 1) && Rows(envs, b, end) == RowsFrom(envs, b, 0) + Rows(envs, b + 1, end)
  {
    hide RowsFrom;
  }

  /** With the current envelope exhausted and no further one of the metric, the run is over. */
  lemma {:induction false} LeaveRun(envs: seq<Envelope>, p: Pos, q: Pos)
    requires SameRun(envs, p, q) && q.env < |envs|
    requires q.env >= 0 ==> q.row + 1 >= |envs[q.env].data|
    requires q.env + 1 < |envs| ==> q.metric != "" && q.metric != envs[q.env + 1].metricName
    ensures q.env + 1 == |envs| ==> Left(envs, p, Pos(q.env + 1, -1, q.metric))
    ensures 0 <= q.env && q.env + 1 < |envs| ==> Left(envs, p, Pos(q.env, |envs[q.env].data|, ""))
  {
    if q.metric != "" {
      assert RowsFrom(envs, q.env, q.row + 1) == [];
    }
  }

  /** Advancing inside an envelope draws exactly the first pending row. */
  lemma {:induction false} DrawRow(envs: seq<Envelope>, p: Pos, q: Pos)
    requires SameRun(envs, p, q) && 0 <= q.env < |envs| && q.metric != ""
    requires q.row + 1 < |envs[q.env].data|
    ensures Drawn(envs, p, q.(row := q.row + 1))
  {
    hide Rows, RunEnd, NamesSet;
    var q' := q.(row := q.row + 1);
    assert NextStart(envs, q') == NextStart(envs, q) && EndOf(envs, q') == EndOf(envs, q);
    var drawn, left := [Place(q.env, q.row + 1)], RowsFrom(envs, q.env, q.row + 2);
    var rest := Rows(envs, NextStart(envs, q), EndOf(envs, q));
    assert (drawn + left) + rest == drawn + (left + rest);
    assert PendingOf(envs, q') == left + rest;
  }

  /** Advancing past the last row of an envelope draws nothing. */
  lemma {:induction false} PassLastRow(envs: seq<Envelope>, p: Pos, q: Pos)
    requires SameRun(envs, p, q) && 0 <= q.env < |envs| && q.metric != ""
    requires q.row + 1 == |envs[q.env].data|
    ensures SameRun(envs, p, q.(row := q.row + 1))
  {
    hide Rows, RunEnd, NamesSet;
    var q' := q.(row := q.row + 1);
    assert NextStart(envs, q') == NextStart(envs, q) && EndOf(envs, q') == EndOf(envs, q);
    assert RowsFrom(envs, q.env, q.row + 1) == RowsFrom(envs, q.env, q.row + 2);
  }

  /** Skipping metric `name`, whose run ends at `end`, has come to envelope `env`. */
  ghost predicate Skipping(envs: seq<Envelope>, name: string, env: int, row: int, end: nat) {
    && NamesSet(envs) && -1 <= env <= |envs| && -1 <= row && end <= |envs|
    && (env == -1 && envs != [] ==> envs[0].metricName == name)
    && (if env < |envs| then RunEnd(envs, name, env + 1) == end else end == |envs|)
  }

  lemma {:induction false} SkipBegins(envs: seq<Envelope>, p: Pos, name: string)
    requires ValidPos(envs, p) && (p.env == -1 && envs != [] ==> envs[0].metricName == name)
    ensures Skipping(envs, name, p.env, p.row, RunEnd(envs, name, NextStart(envs, p)))
  {
    hide NamesSet;
  }

  lemma {:induction false} SkipStep(envs: seq<Envelope>, name: string, env: int, row: int, end: nat)
    requires Skipping(envs, name, env, row, end) && env + 1 < |envs| && envs[env + 1].metricName == name
    ensures Skipping(envs, name, env + 1, row, end)
  {
    hide NamesSet;
  }

  lemma {:induction false} SkipEnds(envs: seq<Envelope>, name: string, env: int, row: int, end: nat)
    requires Skipping(envs, name, env, row, end) && (env + 1 < |envs| ==> envs[env + 1].metricName != name)
    ensures env + 1 >= |envs| ==> AtHead(envs, Pos(|envs|, row, ""), end)
    ensures env + 1 < |envs| ==> 0 <= env && AtHead(envs, Pos(env, |envs[env].data|, ""), end)
  {
    hide NamesSet;
  }

  /** The cursor `copyFromMeasurements`. */
  class Cursor {
    const envelopes: seq<Envelope>
    var envelopeIdx: int
    var measurementIdx: int
    var metricName: string
    var err: bool

    constructor (rows: seq<Envelope>)
      requires NamesSet(rows)
      ensures envelopes == rows && Valid() && metricName == "" && !err
      ensures At() == 0 && envelopeIdx == -1
    {
      envelopes := rows;
      envelopeIdx, measurementIdx, metricName, err := -1, -1, "", false;
    }

    ghost function Here(): Pos
      reads this
    {
      Pos(envelopeIdx, measurementIdx, metricName)
    }

    ghost predicate Valid()
      reads this
    {
      ValidPos(envelopes, Here())
    }

    ghost function At(): nat
      requires Valid()
      reads this
    {
      NextStart(envelopes, Here())
    }

    ghost function End(): nat
      requires Valid()
      reads this
    {
      EndOf(envelopes, Here())
    }

    /** The rows successive calls of Next yield before it answers false. */
    ghost function Pending(): seq<Place>
      requires Valid()
      reads this
    {
      PendingOf(envelopes, Here())
    }

    predicate EOF()
      reads this
    {
      envelopeIdx >= |envelopes|
    }

    method NextEnvelope() returns (ok: bool)
      requires -1 <= envelopeIdx < |envelopes|
      modifies this`envelopeIdx, this`measurementIdx
      ensures envelopeIdx == old(envelopeIdx) + 1 && measurementIdx == -1
      ensures ok <==> envelopeIdx < |envelopes|
    {
      envelopeIdx := envelopeIdx + 1;
      measurementIdx := -1;
      return envelopeIdx < |envelopes|;
    }

    /** Step to the next row of the current metric; false at the metric's end, which also moves past it. */
    method Next() returns (ok: bool)
      requires Valid() && !EOF()
      modifies this`envelopeIdx, this`measurementIdx, this`metricName
      ensures ok ==> Drawn(envelopes, old(Here()), Here())
      ensures !ok ==> Left(envelopes, old(Here()), Here())
    {
      hide PendingOf, EndOf, RunMetric;
      ghost var p := Here();
      while true
        invariant SameRun(envelopes, p, Here()) && !EOF()
        decreases |envelopes| - envelopeIdx
      {
        ghost var q := Here();
        if envelopeIdx < 0 || measurementIdx + 1 >= |envelopes[envelopeIdx].data| {
          var more := NextEnvelope();
          if !more {
            LeaveRun(envelopes, p, q);
            return false;
          }
          if metricName == "" {
            EnterEnvelope(envelopes, p, q);
            metricName := envelopes[envelopeIdx].metricName;
          } else if metricName != envelopes[envelopeIdx].metricName {
            LeaveRun(envelopes, p, q);
            envelopeIdx := envelopeIdx - 1;
            measurementIdx := |envelopes[envelopeIdx].data|;
            metricName := "";
            return false;
          } else {
            EnterEnvelope(envelopes, p, q);
          }
        }
        if measurementIdx + 1 < |envelopes[envelopeIdx].data| {
          DrawRow(envelopes, p, Here());
        } else {
          PassLastRow(envelopes, p, Here());
        }
        measurementIdx := measurementIdx + 1;
        if measurementIdx < |envelopes[envelopeIdx].data| {
          return true;
        }
      }
    }

    /** The table of the next COPY: the metric of the next envelope, if there is one. */
    method MetricName() returns (ident: seq<string>)
      requires Valid()
      ensures At() < |envelopes| ==> ident == [envelopes[At()].metricName]
      ensures At() == |envelopes| ==> ident == []
    {
      if envelopeIdx + 1 < |envelopes| {
        return [envelopes[envelopeIdx + 1].metricName];
      }
      return [];
    }

    /** Drop what is left of a metric after a failed COPY. */
    method SkipMetric(name: seq<string>)
      requires Valid() && |name| <= 1
      requires name != [] && envelopeIdx == -1 && envelopes != [] ==> envelopes[0].metricName == name[0]
      modifies this
      ensures Valid()
      ensures name == [] ==> unchanged(this)
      ensures name != [] ==> AtHead(envelopes, Here(), RunEnd(envelopes, name[0], old(At())))
      ensures name != [] ==> metricName == "" && !err
    {
      if |name| == 0 {
        return;
      }
      ghost var end := RunEnd(envelopes, name[0], At());
      SkipBegins(envelopes, Here(), name[0]);
      hide *;
      while envelopeIdx + 1 < |envelopes| && envelopes[envelopeIdx + 1].metricName == name[0]
        invariant Skipping(envelopes, name[0], envelopeIdx, measurementIdx, end) && -1 <= envelopeIdx <= |envelopes|
        decreases |envelopes| - envelopeIdx
      {
        SkipStep(envelopes, name[0], envelopeIdx, measurementIdx, end);
        envelopeIdx := envelopeIdx + 1;
      }
      SkipEnds(envelopes, name[0], envelopeIdx, measurementIdx, end);
      if envelopeIdx + 1 >= |envelopes| {
        envelopeIdx := |envelopes|;
      } else {
        measurementIdx := |envelopes[envelopeIdx].data|;
      }
      metricName := "";
      err := false;
      HeadIs(end);
    }

    lemma {:induction false} HeadIs(b: nat)
      requires AtHead(envelopes, Pos(envelopeIdx, measurementIdx, metricName), b)
      ensures AtHead(envelopes, Here(), b) && Valid()
    {
      hide ValidPos;
    }
  }
}
