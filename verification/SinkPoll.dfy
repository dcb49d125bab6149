/** The sort of a batch, and which rows of which accepted messages its COPY calls leave stored. */
module SinkPoll {
  import opened Metrics
  import opened CopyCursor
  import opened Sequences
  import opened SinkFlush
  import opened SinkFlushTheorems
  import opened Strings

  /** Channel capacity and batch size. */
  const CACHE_LIMIT: nat := 256

  /** A stored row: the table it went to, its envelope's acceptance number, its index in that envelope. */
  datatype Delivery = Delivery(table: string, env: nat, row: nat)

  predicate InRange(order: seq<nat>, n: nat) {
    forall k :: 0 <= k < |order| ==> order[k] < n
  }

  /** `order` lists the messages so that their metric names do not decrease. */
  ghost predicate IsSorting(msgs: seq<Envelope>, order: seq<nat>) {
    && |order| == |msgs| && NoDup(order)
    && InRange(order, |msgs|)
    && (forall i :: 0 <= i < |msgs| ==> i in order)
    && (forall i, j :: 0 <= i < j < |order| ==> LexLe(msgs[order[i]].metricName, msgs[order[j]].metricName))
  }

  function Arrange(msgs: seq<Envelope>, order: seq<nat>): (r: seq<Envelope>)
    requires InRange(order, |msgs|)
    ensures |r| == |order| && forall k :: 0 <= k < |order| ==> r[k] == msgs[order[k]]
  {
    seq(|order|, k requires 0 <= k < |order| => msgs[order[k]])
  }

  lemma {:induction false} SortingInRange(msgs: seq<Envelope>, order: seq<nat>)
    requires IsSorting(msgs, order)
    ensures InRange(order, |msgs|)
  {
  }

  /** Where the new message goes among messages already in order. */
  method InsertionPoint(msgs: seq<Envelope>, order: seq<nat>, i: nat) returns (p: nat)
    requires i < |msgs| && InRange(order, |msgs|)
    requires forall a, b :: 0 <= a < b < |order| ==> LexLe(msgs[order[a]].metricName, msgs[order[b]].metricName)
    ensures p <= |order|
    ensures forall k :: 0 <= k < p ==> LexLe(msgs[order[k]].metricName, msgs[i].metricName)
    ensures forall k :: p <= k < |order| ==> LexLe(msgs[i].metricName, msgs[order[k]].metricName)
  {
    p := |order|;
    while p > 0 && !LexLe(msgs[order[p - 1]].metricName, msgs[i].metricName)
      invariant p <= |order|
      invariant forall k :: p <= k < |order| ==> LexLe(msgs[i].metricName, msgs[order[k]].metricName)
    {
      LexTotal(msgs[order[p - 1]].metricName, msgs[i].metricName);
      p := p - 1;
    }
    if p > 0 {
      forall k | 0 <= k < p
        ensures LexLe(msgs[order[k]].metricName, msgs[i].metricName)
      {
        if k < p - 1 {
          LexTransitive(msgs[order[k]].metricName, msgs[order[p - 1]].metricName, msgs[i].metricName);
        }
      }
    }
  }

  /** `order` sorts the first `n` messages. */
  ghost predicate SortsFirst(msgs: seq<Envelope>, n: nat, order: seq<nat>)
    requires n <= |msgs|
  {
    IsSorting(msgs[..n], order)
  }

  function InsertAt(s: seq<nat>, p: nat, x: nat): (r: seq<nat>)
    requires p <= |s|
    ensures |r| == |s| + 1 && r[p] == x
    ensures forall k :: 0 <= k < p ==> r[k] == s[k]
    ensures forall k :: p < k < |r| ==> r[k] == s[k - 1]
  {
    s[..p] + [x] + s[p..]
  }

  lemma {:induction false} InsertKeepsMembers(s: seq<nat>, p: nat, x: nat)
    requires p <= |s| && NoDup(s) && x !in s
    ensures NoDup(InsertAt(s, p, x))
    ensures forall y :: y in InsertAt(s, p, x) <==> y == x || y in s
  {
    var r := InsertAt(s, p, x);
    assert forall k :: 0 <= k < |s| ==> s[k] == r[if k < p then k else k + 1];
  }

  lemma {:induction false} InsertKeepsOrder(msgs: seq<Envelope>, s: seq<nat>, p: nat, x: nat)
    requires p <= |s| && x < |msgs| && InRange(s, |msgs|)
    requires forall a, b :: 0 <= a < b < |s| ==> LexLe(msgs[s[a]].metricName, msgs[s[b]].metricName)
    requires forall k :: 0 <= k < p ==> LexLe(msgs[s[k]].metricName, msgs[x].metricName)
    requires forall k :: p <= k < |s| ==> LexLe(msgs[x].metricName, msgs[s[k]].metricName)
    ensures var r := InsertAt(s, p, x);
            forall a, b :: 0 <= a < b < |r| ==>
              r[a] < |msgs| && r[b] < |msgs| && LexLe(msgs[r[a]].metricName, msgs[r[b]].metricName)
  {
    hide LexLe, InsertAt;
  }

  lemma {:induction false} InsertKeepsSorting(msgs: seq<Envelope>, i: nat, before: seq<nat>, p: nat)
    requires i < |msgs| && SortsFirst(msgs, i, before) && p <= i
    requires forall k :: 0 <= k < p ==> LexLe(msgs[before[k]].metricName, msgs[i].metricName)
    requires forall k :: p <= k < i ==> LexLe(msgs[i].metricName, msgs[before[k]].metricName)
    ensures SortsFirst(msgs, i + 1, InsertAt(before, p, i))
  {
    assert forall k :: 0 <= k < i ==> msgs[..i][before[k]] == msgs[before[k]];
    hide LexLe, InsertAt;
    var order := InsertAt(before, p, i);
    InsertKeepsMembers(before, p, i);
    InsertKeepsOrder(msgs, before, p, i);
    forall k | 0 <= k <= i
      ensures order[k] < i + 1
    {
      assert order[k] in order;
    }
  }

  /** The order in which the sort leaves the messages; callers may rely only on it being a sorting. */
  method SortOrder(msgs: seq<Envelope>) returns (order: seq<nat>)
    ensures IsSorting(msgs, order)
  {
    order := [];
    for i := 0 to |msgs|
      invariant SortsFirst(msgs, i, order)
    {
      var p := InsertionPoint(msgs, order, i);
      InsertKeepsSorting(msgs, i, order, p);
      order := InsertAt(order, p, i);
    }
    assert msgs[..|msgs|] == msgs;
  }

  /** The drawn rows, each with the table its COPY wrote to. */
  function Tagged(calls: seq<Call>): seq<(string, Place)> {
    if calls == [] then [] else TagRows(calls[0].table, calls[0].drawn) + Tagged(calls[1..])
  }

  function TagRows(table: string, drawn: seq<Place>): (r: seq<(string, Place)>)
    ensures |r| == |drawn| && forall k :: 0 <= k < |r| ==> r[k] == (table, drawn[k])
  {
    seq(|drawn|, k requires 0 <= k < |drawn| => (table, drawn[k]))
  }

  /** Row `t.1` exists and `t.0` is its metric's table. */
  predicate OwnTable(envs: seq<Envelope>, t: (string, Place)) {
    t.1.env < |envs| && t.1.row < |envs[t.1.env].data| && t.0 == envs[t.1.env].metricName
  }

  lemma {:induction false} TagRowsOwnTable(envs: seq<Envelope>, run: Run, call: Call)
    requires Serves(envs, run, call)
    ensures forall t :: t in TagRows(call.table, call.drawn) ==> OwnTable(envs, t)
  {
    var rows := Rows(envs, run.lo, run.hi);
    RowsAre(envs, run.lo, run.hi);
    hide Rows;
    var tagged := TagRows(call.table, call.drawn);
    forall k | 0 <= k < |tagged|
      ensures OwnTable(envs, tagged[k])
    {
      assert call.drawn[k] == rows[k];
      assert call.drawn[k] in rows;
    }
  }

  /** Every drawn row is tagged with its own metric's table. */
  lemma {:induction false} TaggedWithOwnTable(envs: seq<Envelope>, b: nat, calls: seq<Call>)
    requires b <= |envs| && ServesAll(envs, Runs(envs, b), calls)
    ensures forall t :: t in Tagged(calls) ==> OwnTable(envs, t)
    decreases |envs| - b
  {
    if calls != [] {
      ServesTail(envs, b, calls);
      var end := RunEnd(envs, envs[b].metricName, b);
      hide Serves, ServesAll, Runs, OwnTable;
      TagRowsOwnTable(envs, Run(b, end), calls[0]);
      TaggedWithOwnTable(envs, end, calls[1..]);
    }
  }

  /** Tagging keeps the rows and their order. */
  lemma {:induction false} TaggedRows(calls: seq<Call>)
    ensures |Tagged(calls)| == |AllDrawn(calls)|
    ensures forall k :: 0 <= k < |Tagged(calls)| ==> Tagged(calls)[k].1 == AllDrawn(calls)[k]
  {
    if calls != [] {
      TaggedRows(calls[1..]);
      var n, t, d := |calls[0].drawn|, Tagged(calls[1..]), AllDrawn(calls[1..]);
      forall k | 0 <= k < |Tagged(calls)|
        ensures Tagged(calls)[k].1 == AllDrawn(calls)[k]
      {
        if k >= n {
          assert Tagged(calls)[k] == t[k - n] && AllDrawn(calls)[k] == d[k - n];
        }
      }
    }
  }

  /** The row in acceptance numbers: message `order[e]` of the batch is number `off + order[e]`. */
  function NumberRow(t: (string, Place), order: seq<nat>, off: nat): Delivery {
    Delivery(t.0, if t.1.env < |order| then off + order[t.1.env] else off, t.1.row)
  }

  function Number(tagged: seq<(string, Place)>, order: seq<nat>, off: nat): (r: seq<Delivery>)
    ensures |r| == |tagged|
    ensures forall k :: 0 <= k < |r| ==> r[k] == NumberRow(tagged[k], order, off)
  {
    seq(|tagged|, k requires 0 <= k < |tagged| => NumberRow(tagged[k], order, off))
  }

  /** Row `d` exists in message `d.env` of `msgs` and went to that message's table. */
  predicate Rightful(msgs: seq<Envelope>, lo: nat, hi: nat, d: Delivery) {
    && lo <= d.env < hi <= |msgs|
    && d.row < |msgs[d.env].data| && d.table == msgs[d.env].metricName
  }

  /** Numbering is injective on rows, so it introduces no duplicates. */
  lemma {:induction false} NumberOnce(tagged: seq<(string, Place)>, order: seq<nat>, off: nat, drawn: seq<Place>)
    requires NoDup(order) && NoDup(drawn) && |tagged| == |drawn|
    requires forall k :: 0 <= k < |tagged| ==> tagged[k].1.env < |order| && tagged[k].1 == drawn[k]
    ensures NoDup(Number(tagged, order, off))
  {
    var stored := Number(tagged, order, off);
    forall i, j | 0 <= i < j < |stored|
      ensures stored[i] != stored[j]
    {
      assert tagged[i].1 != tagged[j].1;
    }
  }

  lemma {:induction false} NumberRightful(accepted: seq<Envelope>, lo: nat, hi: nat, order: seq<nat>, t: (string, Place))
    requires lo <= hi <= |accepted| && IsSorting(accepted[lo..hi], order)
    requires OwnTable(Arrange(accepted[lo..hi], order), t)
    ensures Rightful(accepted, lo, hi, NumberRow(t, order, lo))
  {
    assert accepted[lo..hi][order[t.1.env]] == accepted[lo + order[t.1.env]];
  }

  /** One batch: each row its COPY calls drew is an accepted row, for its own metric's table, at most once. */
  lemma {:induction false} BatchStored(accepted: seq<Envelope>, lo: nat, hi: nat, order: seq<nat>, calls: seq<Call>)
    requires lo <= hi <= |accepted| && IsSorting(accepted[lo..hi], order)
    requires var envs := Arrange(accepted[lo..hi], order);
             ServesAll(envs, Runs(envs, 0), calls)
    ensures var stored := Number(Tagged(calls), order, lo);
            NoDup(stored) && forall d :: d in stored ==> Rightful(accepted, lo, hi, d)
  {
    var envs := Arrange(accepted[lo..hi], order);
    TaggedWithOwnTable(envs, 0, calls);
    TaggedRows(calls);
    DrawnAtMostOnce(envs, 0, calls);
    assert NoDup(order);
    var tagged := Tagged(calls);
    forall k | 0 <= k < |tagged|
      ensures tagged[k].1.env < |order| && Rightful(accepted, lo, hi, NumberRow(tagged[k], order, lo))
    {
      assert tagged[k] in tagged;
      hide ServesAll, Runs, Tagged, AllDrawn, Rightful;
      NumberRightful(accepted, lo, hi, order, tagged[k]);
    }
    hide ServesAll, Runs, Tagged, AllDrawn, IsSorting, OwnTable, Rightful, NoDup;
    NumberOnce(tagged, order, lo, AllDrawn(calls));
  }

  /** A COPY that fails leaves nothing behind. */
  function KeepOne(call: Call): Call {
    if call.ok then call else call.(drawn := [], times := [])
  }

  function Kept(calls: seq<Call>): (r: seq<Call>)
    ensures |r| == |calls| && forall i :: 0 <= i < |r| ==> r[i] == KeepOne(calls[i])
  {
    seq(|calls|, i requires 0 <= i < |calls| => KeepOne(calls[i]))
  }

  lemma {:induction false} KeptServes(envs: seq<Envelope>, runs: seq<Run>, calls: seq<Call>)
    requires ServesAll(envs, runs, calls)
    ensures ServesAll(envs, runs, Kept(calls))
  {
    hide Rows, Kept;
    forall i | 0 <= i < |calls| ensures Serves(envs, runs[i], Kept(calls)[i]) {
      assert Serves(envs, runs[i], calls[i]);
    }
  }

  /** The rows the COPY calls of a batch leave stored, by acceptance number. */
  function StoredRows(calls: seq<Call>, order: seq<nat>, off: nat): seq<Delivery> {
    Number(Tagged(Kept(calls)), order, off)
  }

  /** The messages of a batch whose metric was copied. */
  function CopiedIn(runs: seq<Run>, calls: seq<Call>, order: seq<nat>, off: nat): set<nat> {
    set i, k | 0 <= i < |calls| && i < |runs| && calls[i].ok && runs[i].lo <= k < runs[i].hi && k < |order| :: off + order[k]
  }

  /** All rows of the message are stored, in its own metric's table. */
  ghost predicate Whole(msgs: seq<Envelope>, e: nat, stored: seq<Delivery>) {
    e < |msgs| && forall m: nat :: m < |msgs[e].data| ==> Delivery(msgs[e].metricName, e, m) in stored
  }

  lemma {:induction false} TaggedHas(calls: seq<Call>, i: nat, p: Place)
    requires i < |calls| && p in calls[i].drawn
    ensures (calls[i].table, p) in Tagged(calls)
  {
    if i == 0 {
      var k :| 0 <= k < |calls[0].drawn| && calls[0].drawn[k] == p;
      assert TagRows(calls[0].table, calls[0].drawn)[k] == (calls[0].table, p);
    } else {
      TaggedHas(calls[1..], i - 1, p);
      assert calls[1..][i - 1] == calls[i];
    }
  }

  lemma {:induction false} TaggedFrom(calls: seq<Call>, t: (string, Place)) returns (i: nat)
    requires t in Tagged(calls)
    ensures i < |calls| && t.1 in calls[i].drawn && t.0 == calls[i].table
  {
    var here := TagRows(calls[0].table, calls[0].drawn);
    if t in here {
      var k :| 0 <= k < |here| && here[k] == t;
      assert calls[0].drawn[k] == t.1;
      i := 0;
    } else {
      var j := TaggedFrom(calls[1..], t);
      i := j + 1;
    }
  }

  /** A tagged row of the sorted batch, under its acceptance number. */
  lemma {:induction false} NumberedRow(accepted: seq<Envelope>, lo: nat, hi: nat, order: seq<nat>, k: nat)
    requires lo <= hi <= |accepted| && IsSorting(accepted[lo..hi], order) && k < |order|
    ensures InRange(order, hi - lo) && lo + order[k] < hi && Arrange(accepted[lo..hi], order)[k] == accepted[lo + order[k]]
  {
    assert accepted[lo..hi][order[k]] == accepted[lo + order[k]];
  }

  /** A message whose metric was copied is stored whole. */
  lemma {:induction false} CopiedIsWhole(accepted: seq<Envelope>, lo: nat, hi: nat, order: seq<nat>, calls: seq<Call>, i: nat, k: nat)
    requires lo <= hi <= |accepted| && IsSorting(accepted[lo..hi], order)
    requires var envs := Arrange(accepted[lo..hi], order);
             ServesAll(envs, Runs(envs, 0), calls) && i < |calls| && calls[i].ok && Runs(envs, 0)[i].lo <= k < Runs(envs, 0)[i].hi
    ensures k < |order| && lo + order[k] < hi && Whole(accepted, lo + order[k], StoredRows(calls, order, lo))
  {
    hide *;
    SortingInRange(accepted[lo..hi], order);
    var envs := Arrange(accepted[lo..hi], order);
    ServedAt(envs, Runs(envs, 0), calls, i);
    DrawnWhole(envs, Runs(envs, 0)[i], calls[i], k);
    NumberedRow(accepted, lo, hi, order, k);
    var e := lo + order[k];
    forall m: nat | m < |accepted[e].data| ensures Delivery(accepted[e].metricName, e, m) in StoredRows(calls, order, lo) {
      DrawnIsStored(calls, i, Place(k, m), order, lo);
    }
    WholeIntro(accepted, e, StoredRows(calls, order, lo));
  }

  lemma {:induction false} WholeIntro(msgs: seq<Envelope>, e: nat, stored: seq<Delivery>)
    requires e < |msgs| && forall m: nat :: m < |msgs[e].data| ==> Delivery(msgs[e].metricName, e, m) in stored
    ensures Whole(msgs, e, stored)
  {
  }

  lemma {:induction false} ServedAt(envs: seq<Envelope>, runs: seq<Run>, calls: seq<Call>, i: nat)
    requires ServesAll(envs, runs, calls) && i < |calls|
    ensures i < |runs| && Serves(envs, runs[i], calls[i])
  {
    hide Serves;
  }

  /** A successful COPY draws every row of its messages. */
  lemma {:induction false} DrawnWhole(envs: seq<Envelope>, run: Run, call: Call, k: nat)
    requires Serves(envs, run, call) && call.ok && run.lo <= k < run.hi
    ensures k < |envs| && envs[k].metricName == call.table
    ensures forall m: nat :: m < |envs[k].data| ==> Place(k, m) in call.drawn
  {
    RowsAre(envs, run.lo, run.hi);
    hide Rows;
  }

  lemma {:induction false} DrawnIsStored(calls: seq<Call>, i: nat, p: Place, order: seq<nat>, off: nat)
    requires i < |calls| && calls[i].ok && p in calls[i].drawn && p.env < |order|
    ensures Delivery(calls[i].table, off + order[p.env], p.row) in StoredRows(calls, order, off)
  {
    hide Tagged, Kept;
    var tagged := Tagged(Kept(calls));
    assert Kept(calls)[i] == KeepOne(calls[i]);
    TaggedHas(Kept(calls), i, p);
    var j :| 0 <= j < |tagged| && tagged[j] == (calls[i].table, p);
    assert Number(tagged, order, off)[j] == NumberRow(tagged[j], order, off);
  }

  lemma {:induction false} NumberedEnv(t: (string, Place), order: seq<nat>, off: nat)
    requires t.1.env < |order|
    ensures NumberRow(t, order, off) == Delivery(t.0, off + order[t.1.env], t.1.row)
  {
  }

  /** A stored row belongs to a message whose metric was copied. */
  lemma {:induction false} StoredIsCopied(envs: seq<Envelope>, order: seq<nat>, off: nat, calls: seq<Call>, d: Delivery)
    requires |order| == |envs| && ServesAll(envs, Runs(envs, 0), calls) && d in StoredRows(calls, order, off)
    ensures d.env in CopiedIn(Runs(envs, 0), calls, order, off)
  {
    hide Tagged, Runs, Rows, Kept, NumberRow;
    var tagged, kept, runs := Tagged(Kept(calls)), Kept(calls), Runs(envs, 0);
    var j :| 0 <= j < |tagged| && NumberRow(tagged[j], order, off) == d;
    var i := TaggedFrom(kept, tagged[j]);
    assert kept[i] == KeepOne(calls[i]);
    assert Serves(envs, runs[i], calls[i]);
    RowsAre(envs, runs[i].lo, runs[i].hi);
    assert tagged[j].1 in Rows(envs, runs[i].lo, runs[i].hi);
    NumberedEnv(tagged[j], order, off);
  }

  /** Every message is in one of the runs. */
  lemma {:induction false} RunsCover(envs: seq<Envelope>, b: nat, k: nat) returns (i: nat)
    requires b <= k < |envs|
    ensures i < |Runs(envs, b)| && Runs(envs, b)[i].lo <= k < Runs(envs, b)[i].hi
    decreases |envs| - b
  {
    var end := RunEnd(envs, envs[b].metricName, b);
    if k < end {
      i := 0;
    } else {
      var j := RunsCover(envs, end, k);
      i := j + 1;
    }
  }

  /** When every COPY of the batch succeeds all its messages are copied. */
  lemma {:induction false} AllCopied(accepted: seq<Envelope>, lo: nat, hi: nat, order: seq<nat>, calls: seq<Call>, e: nat)
    requires lo <= e < hi <= |accepted| && IsSorting(accepted[lo..hi], order)
    requires var envs := Arrange(accepted[lo..hi], order);
             |calls| == |Runs(envs, 0)| && AllSucceeded(calls)
    ensures e in CopiedIn(Runs(Arrange(accepted[lo..hi], order), 0), calls, order, lo)
  {
    var envs := Arrange(accepted[lo..hi], order);
    var k := OrderIndex(accepted, lo, hi, order, e);
    var i := RunsCover(envs, 0, k);
    hide Runs, IsSorting;
    assert calls[i].ok && lo + order[k] == e;
  }

  /** Some successful COPY went to the metric's table. */
  ghost predicate MetricCopied(calls: seq<Call>, metric: string) {
    exists i :: 0 <= i < |calls| && calls[i].ok && calls[i].table == metric
  }

  lemma {:induction false} LaterRunDiffers(envs: seq<Envelope>, b: nat, i: nat)
    requires b < |envs| && SortedByMetric(envs) && 0 < i < |Runs(envs, b)|
    ensures Runs(envs, b)[i].lo < |envs| && envs[Runs(envs, b)[i].lo].metricName != envs[b].metricName
  {
    var end := RunEnd(envs, envs[b].metricName, b);
    NeverComesBack(envs, b);
    RunsStart(envs, end, i - 1);
    assert Runs(envs, b)[i] == Runs(envs, end)[i - 1];
  }

  lemma {:induction false} RunsStart(envs: seq<Envelope>, b: nat, i: nat)
    requires b <= |envs| && i < |Runs(envs, b)|
    ensures b <= Runs(envs, b)[i].lo < Runs(envs, b)[i].hi <= |envs|
    ensures forall k :: Runs(envs, b)[i].lo <= k < Runs(envs, b)[i].hi ==> envs[k].metricName == envs[Runs(envs, b)[i].lo].metricName
    decreases |envs| - b
  {
    if i > 0 {
      var end := RunEnd(envs, envs[b].metricName, b);
      RunsStart(envs, end, i - 1);
      assert Runs(envs, b)[i] == Runs(envs, end)[i - 1];
    }
  }

  /** On sorted messages different runs are of different metrics. */
  lemma {:induction false} RunsDiffer(envs: seq<Envelope>, b: nat, i: nat, j: nat)
    requires b <= |envs| && SortedByMetric(envs) && i < j < |Runs(envs, b)|
    ensures Runs(envs, b)[i].lo < |envs| && Runs(envs, b)[j].lo < |envs|
    ensures envs[Runs(envs, b)[i].lo].metricName != envs[Runs(envs, b)[j].lo].metricName
    decreases |envs| - b
  {
    if i == 0 {
      LaterRunDiffers(envs, b, j);
    } else {
      var end := RunEnd(envs, envs[b].metricName, b);
      RunsDiffer(envs, end, i - 1, j - 1);
      assert Runs(envs, b)[i] == Runs(envs, end)[i - 1] && Runs(envs, b)[j] == Runs(envs, end)[j - 1];
    }
  }

  /** In a sorted batch a message is copied exactly when some COPY of its metric succeeded. */
  lemma {:induction false} CopiedByMetric(envs: seq<Envelope>, calls: seq<Call>, k: nat)
    requires SortedByMetric(envs) && ServesAll(envs, Runs(envs, 0), calls) && k < |envs|
    ensures |calls| <= |Runs(envs, 0)|
    ensures MetricCopied(calls, envs[k].metricName) <==>
      exists i :: 0 <= i < |calls| && calls[i].ok && Runs(envs, 0)[i].lo <= k < Runs(envs, 0)[i].hi
  {
    var runs := Runs(envs, 0);
    var j := RunsCover(envs, 0, k);
    RunsStart(envs, 0, j);
    if i :| 0 <= i < |calls| && calls[i].ok && calls[i].table == envs[k].metricName {
      assert Serves(envs, runs[i], calls[i]);
      if i < j {
        RunsDiffer(envs, 0, i, j);
      } else if j < i {
        RunsDiffer(envs, 0, j, i);
      }
    }
    if i :| 0 <= i < |calls| && calls[i].ok && runs[i].lo <= k < runs[i].hi {
      assert Serves(envs, runs[i], calls[i]);
    }
  }

  lemma {:induction false} SortedArrangement(msgs: seq<Envelope>, order: seq<nat>)
    requires IsSorting(msgs, order)
    ensures InRange(order, |msgs|) && SortedByMetric(Arrange(msgs, order))
  {
    hide LexLe;
  }

  /** Where the sort put message `e`. */
  lemma {:induction false} OrderIndex(accepted: seq<Envelope>, lo: nat, hi: nat, order: seq<nat>, e: nat) returns (at: nat)
    requires lo <= e < hi <= |accepted| && IsSorting(accepted[lo..hi], order)
    ensures at < |order| && lo + order[at] == e && Arrange(accepted[lo..hi], order)[at] == accepted[e]
  {
    assert e - lo in order;
    at :| 0 <= at < |order| && order[at] == e - lo;
  }
}
