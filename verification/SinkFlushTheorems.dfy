/** What a whole flush draws: no row for another table, none twice, all of them when every COPY succeeds. */
module SinkFlushTheorems {
  import opened Metrics
  import opened CopyCursor
  import opened PartitionBounds
  import opened Sequences
  import opened SinkFlush
  import opened Strings

  /** Rows of `lo..hi` are exactly the existing rows of those envelopes ... */
  lemma {:induction false} RowsAre(envs: seq<Envelope>, lo: nat, hi: nat)
    requires lo <= hi <= |envs|
    ensures forall p :: p in Rows(envs, lo, hi) <==> lo <= p.env < hi && p.row < |envs[p.env].data|
    decreases hi - lo
  {
    if lo < hi {
      RowsFromAre(envs, lo, 0);
      RowsAre(envs, lo + 1, hi);
    }
  }

  lemma {:induction false} RowsFromAre(envs: seq<Envelope>, e: nat, m: nat)
    requires e < |envs|
    ensures forall p :: p in RowsFrom(envs, e, m) <==> p.env == e && m <= p.row < |envs[e].data|
    ensures NoDup(RowsFrom(envs, e, m))
    decreases |envs[e].data| - m
  {
    if m < |envs[e].data| {
      RowsFromAre(envs, e, m + 1);
      NoDupConcat([Place(e, m)], RowsFrom(envs, e, m + 1));
    }
  }

  /** ... each of them once. */
  lemma {:induction false} RowsOnce(envs: seq<Envelope>, lo: nat, hi: nat)
    requires lo <= hi <= |envs|
    ensures NoDup(Rows(envs, lo, hi))
    decreases hi - lo
  {
    if lo < hi {
      RowsOnce(envs, lo + 1, hi);
      RowsFromAre(envs, lo, 0);
      RowsAre(envs, lo + 1, hi);
      NoDupConcat(RowsFrom(envs, lo, 0), Rows(envs, lo + 1, hi));
    }
  }

  lemma {:induction false} RowsSplit(envs: seq<Envelope>, lo: nat, mid: nat, hi: nat)
    requires lo <= mid <= hi <= |envs|
    ensures Rows(envs, lo, hi) == Rows(envs, lo, mid) + Rows(envs, mid, hi)
    decreases mid - lo
  {
    if lo < mid {
      RowsSplit(envs, lo + 1, mid, hi);
      var first, a, b := RowsFrom(envs, lo, 0), Rows(envs, lo + 1, mid), Rows(envs, mid, hi);
      assert first + (a + b) == (first + a) + b;
    }
  }

  /** The rows drawn by a sequence of COPY calls, in the order they were drawn. */
  function AllDrawn(calls: seq<Call>): seq<Place> {
    if calls == [] then [] else calls[0].drawn + AllDrawn(calls[1..])
  }

  ghost predicate AllSucceeded(calls: seq<Call>) {
    forall i :: 0 <= i < |calls| ==> calls[i].ok
  }

  /** Serving the runs from `b` on: the tail of the calls serves the runs after the first. */
  lemma {:induction false} ServesTail(envs: seq<Envelope>, b: nat, calls: seq<Call>)
    requires b < |envs| && calls != [] && ServesAll(envs, Runs(envs, b), calls)
    ensures var end := RunEnd(envs, envs[b].metricName, b);
            b < end && Serves(envs, Run(b, end), calls[0]) && ServesAll(envs, Runs(envs, end), calls[1..])
  {
    assert b < RunEnd(envs, envs[b].metricName, b);
    RunsFirst(envs, b);
    hide Serves, RunEnd, Runs;
    var end := RunEnd(envs, envs[b].metricName, b);
    var runs, rest := Runs(envs, b), Runs(envs, end);
    assert runs[0] == Run(b, end);
    forall i | 0 <= i < |calls[1..]| ensures Serves(envs, rest[i], calls[1..][i]) {
      assert runs[i + 1] == rest[i] && calls[1..][i] == calls[i + 1];
    }
  }

  /** Every row is drawn for the table of its own metric. */
  lemma {:induction false} DrawnForOwnTable(envs: seq<Envelope>, calls: seq<Call>, i: nat, p: Place)
    requires ServesAll(envs, Runs(envs, 0), calls) && i < |calls| && p in calls[i].drawn
    ensures p.env < |envs| && p.row < |envs[p.env].data| && envs[p.env].metricName == calls[i].table
  {
    var run := Runs(envs, 0)[i];
    assert Serves(envs, run, calls[i]);
    assert p in Rows(envs, run.lo, run.hi);
    RowsAre(envs, run.lo, run.hi);
  }

  /** Every time a COPY gives a row lies inside the bounds of the table it goes to. */
  lemma {:induction false} TimesInsideBounds(envs: seq<Envelope>, epochs: seq<int>, b: map<string, Bounds>, calls: seq<Call>, i: nat, k: nat)
    requires |epochs| == |envs| && Tight(envs, epochs, b)
    requires ServesAll(envs, Runs(envs, 0), calls) && AllStamped(epochs, calls)
    requires i < |calls| && k < |calls[i].times|
    ensures Inside(b, calls[i].table, calls[i].times[k])
  {
    assert Stamped(epochs, calls[i].drawn, calls[i].times);
    var p := calls[i].drawn[k];
    DrawnForOwnTable(envs, calls, i, p);
    hide ServesAll, Runs, Tight;
    EpochInsideBounds(envs, epochs, b, p.env);
  }

  /** No row is drawn twice in a flush, whatever fails in between. */
  lemma {:induction false} DrawnAtMostOnce(envs: seq<Envelope>, b: nat, calls: seq<Call>)
    requires b <= |envs| && ServesAll(envs, Runs(envs, b), calls)
    ensures NoDup(AllDrawn(calls))
    ensures forall p :: p in AllDrawn(calls) ==> p in Rows(envs, b, |envs|)
    decreases |envs| - b
  {
    if calls != [] {
      ServesTail(envs, b, calls);
      var end := RunEnd(envs, envs[b].metricName, b);
      DrawnAtMostOnce(envs, end, calls[1..]);
      RowsOnce(envs, b, end);
      RowsAre(envs, b, end);
      RowsAre(envs, end, |envs|);
      RowsSplit(envs, b, end, |envs|);
      var rows := Rows(envs, b, end);
      assert forall p :: p in calls[0].drawn ==> p in rows;
      NoDupConcat(calls[0].drawn, AllDrawn(calls[1..]));
    }
  }

  /** When every COPY succeeds, the flush draws all rows, in order. */
  lemma {:induction false} AllSuccessDrawsEverything(envs: seq<Envelope>, b: nat, calls: seq<Call>)
    requires b <= |envs| && ServesAll(envs, Runs(envs, b), calls)
    requires |calls| == |Runs(envs, b)| && AllSucceeded(calls)
    ensures AllDrawn(calls) == Rows(envs, b, |envs|)
    decreases |envs| - b
  {
    if b < |envs| {
      ServesTail(envs, b, calls);
      var end := RunEnd(envs, envs[b].metricName, b);
      AllSuccessDrawsEverything(envs, end, calls[1..]);
      RowsSplit(envs, b, end, |envs|);
    }
  }

  ghost predicate SortedByMetric(envs: seq<Envelope>) {
    forall i, j :: 0 <= i < j < |envs| ==> LexLe(envs[i].metricName, envs[j].metricName)
  }

  ghost function MetricsFrom(envs: seq<Envelope>, b: nat): set<string>
    requires b <= |envs|
  {
    set k | b <= k < |envs| :: envs[k].metricName
  }

  lemma {:induction false} NeverComesBack(envs: seq<Envelope>, b: nat)
    requires b < |envs| && SortedByMetric(envs)
    ensures envs[b].metricName !in MetricsFrom(envs, RunEnd(envs, envs[b].metricName, b))
  {
    var name := envs[b].metricName;
    var end := RunEnd(envs, name, b);
    forall k | end <= k < |envs|
      ensures envs[k].metricName != name
    {
      if envs[k].metricName == name {
        assert end < k;
        LexAntisymmetric(envs[end].metricName, name);
      }
    }
  }

  /** On sorted messages a metric never comes back after its run: one run, hence one COPY, per metric. */
  lemma {:induction false} OneRunPerMetric(envs: seq<Envelope>, b: nat)
    requires b <= |envs| && SortedByMetric(envs)
    ensures |Runs(envs, b)| == |MetricsFrom(envs, b)|
    decreases |envs| - b
  {
    if b < |envs| {
      var name := envs[b].metricName;
      var end := RunEnd(envs, name, b);
      OneRunPerMetric(envs, end);
      NeverComesBack(envs, b);
      assert MetricsFrom(envs, b) == {name} + MetricsFrom(envs, end);
    } else {
      assert MetricsFrom(envs, b) == {};
    }
  }

  lemma {:induction false} TablesDiffer(envs: seq<Envelope>, b: nat, calls: seq<Call>)
    requires b <= |envs| && SortedByMetric(envs) && ServesAll(envs, Runs(envs, b), calls)
    ensures forall i :: 0 <= i < |calls| ==> calls[i].table in MetricsFrom(envs, b)
    ensures forall i, j :: 0 <= i < j < |calls| ==> calls[i].table != calls[j].table
    decreases |envs| - b
  {
    if calls != [] {
      ServesTail(envs, b, calls);
      var end := RunEnd(envs, envs[b].metricName, b);
      assert calls[0].table == envs[b].metricName;
      hide ServesAll, Serves, SortedByMetric;
      TablesDiffer(envs, end, calls[1..]);
      NeverComesBack(envs, b);
      assert MetricsFrom(envs, end) <= MetricsFrom(envs, b);
      hide MetricsFrom;
      forall i | 0 < i < |calls|
        ensures calls[i].table in MetricsFrom(envs, end)
      {
        assert calls[i] == calls[1..][i - 1];
      }
      forall i, j | 0 <= i < j < |calls|
        ensures calls[i].table != calls[j].table
      {
        if i > 0 {
          assert calls[i] == calls[1..][i - 1] && calls[j] == calls[1..][j - 1];
        }
      }
    }
  }

  /** Everything a flush of sorted messages promises, in one statement. */
  lemma {:induction false} FlushDelivers(envs: seq<Envelope>, calls: seq<Call>)
    requires SortedByMetric(envs) && ServesAll(envs, Runs(envs, 0), calls)
    ensures |calls| <= |MetricsFrom(envs, 0)|
    ensures forall i, j :: 0 <= i < j < |calls| ==> calls[i].table != calls[j].table
    ensures NoDup(AllDrawn(calls))
    ensures |calls| == |Runs(envs, 0)| && AllSucceeded(calls) ==>
              forall e, m :: 0 <= e < |envs| && 0 <= m < |envs[e].data| ==> Place(e, m) in AllDrawn(calls)
  {
    OneRunPerMetric(envs, 0);
    DrawnAtMostOnce(envs, 0, calls);
    TablesDiffer(envs, 0, calls);
    if |calls| == |Runs(envs, 0)| && AllSucceeded(calls) {
      AllSuccessDrawsEverything(envs, 0, calls);
      RowsAre(envs, 0, |envs|);
    }
  }
}
