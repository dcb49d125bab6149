/** The time range of each metric in a batch, and why every stored timestamp falls into it. */
module PartitionBounds {
  import opened Metrics
  import opened CopyCursor

  datatype Bounds = Bounds(startTime: int, endTime: int)

  /** Message `k` has rows and belongs to `metric`. */
  predicate Counts(msgs: seq<Envelope>, k: nat, metric: string) {
    k < |msgs| && msgs[k].data != [] && msgs[k].metricName == metric
  }

  /** `b` is exactly the minimum and maximum, per metric, of the epochs of the messages that have rows. */
  ghost predicate Tight(msgs: seq<Envelope>, epochs: seq<int>, b: map<string, Bounds>)
    requires |epochs| <= |msgs|
  {
    && (forall k, metric :: 0 <= k < |epochs| && Counts(msgs, k, metric) ==>
          metric in b && b[metric].startTime <= epochs[k] <= b[metric].endTime)
    && (forall metric :: metric in b ==>
          && (exists k :: 0 <= k < |epochs| && Counts(msgs, k, metric) && epochs[k] == b[metric].startTime)
          && (exists k :: 0 <= k < |epochs| && Counts(msgs, k, metric) && epochs[k] == b[metric].endTime))
  }

  /** One message widens the bounds of its metric just enough. */
  lemma {:induction false} TightStep(msgs: seq<Envelope>, epochs: seq<int>, b: map<string, Bounds>, epoch: int, bounds: Bounds)
    requires |epochs| < |msgs| && Tight(msgs, epochs, b)
    requires var m := msgs[|epochs|];
             && m.data != []
             && bounds.startTime == (if m.metricName in b && b[m.metricName].startTime <= epoch then b[m.metricName].startTime else epoch)
             && bounds.endTime == (if m.metricName in b && b[m.metricName].endTime >= epoch then b[m.metricName].endTime else epoch)
    ensures Tight(msgs, epochs + [epoch], b[msgs[|epochs|].metricName := bounds])
  {
    var n, m, e', b' := |epochs|, msgs[|epochs|].metricName, epochs + [epoch], b[msgs[|epochs|].metricName := bounds];
    assert Counts(msgs, n, m) && e'[n] == epoch;
    forall metric | metric in b'
      ensures exists k :: 0 <= k < |e'| && Counts(msgs, k, metric) && e'[k] == b'[metric].startTime
      ensures exists k :: 0 <= k < |e'| && Counts(msgs, k, metric) && e'[k] == b'[metric].endTime
    {
      if metric in b {
        var lo :| 0 <= lo < |epochs| && Counts(msgs, lo, metric) && epochs[lo] == b[metric].startTime;
        var hi :| 0 <= hi < |epochs| && Counts(msgs, hi, metric) && epochs[hi] == b[metric].endTime;
        assert e'[lo] == epochs[lo] && e'[hi] == epochs[hi];
      }
    }
  }

  lemma {:induction false} TightSkip(msgs: seq<Envelope>, epochs: seq<int>, b: map<string, Bounds>)
    requires |epochs| < |msgs| && Tight(msgs, epochs, b) && msgs[|epochs|].data == []
    ensures Tight(msgs, epochs + [0], b)
  {
    var e' := epochs + [0];
    forall metric | metric in b
      ensures exists k :: 0 <= k < |e'| && Counts(msgs, k, metric) && e'[k] == b[metric].startTime
      ensures exists k :: 0 <= k < |e'| && Counts(msgs, k, metric) && e'[k] == b[metric].endTime
    {
      var lo :| 0 <= lo < |epochs| && Counts(msgs, lo, metric) && epochs[lo] == b[metric].startTime;
      var hi :| 0 <= hi < |epochs| && Counts(msgs, hi, metric) && epochs[hi] == b[metric].endTime;
      assert e'[lo] == epochs[lo] && e'[hi] == epochs[hi];
    }
  }

  /** The rows whose epoch stands for their envelope: the first row of each non-empty one. */
  ghost function FirstRows(msgs: seq<Envelope>): set<Measurement> {
    set k | 0 <= k < |msgs| && msgs[k].data != [] :: msgs[k].data[0]
  }

  /** Take one message's epoch into the bounds of its metric. */
  method Widen(msgs: seq<Envelope>, ghost epochs: seq<int>, b: map<string, Bounds>, i: nat, epoch: int)
    returns (b': map<string, Bounds>)
    requires i < |msgs| && msgs[i].data != [] && |epochs| == i && Tight(msgs, epochs, b)
    ensures Tight(msgs, epochs + [epoch], b')
  {
    hide Tight;
    var msg := msgs[i];
    var known := msg.metricName in b;
    var bounds := if known then b[msg.metricName] else Bounds(0, 0);
    b' := b;
    if !known || epoch < bounds.startTime {
      bounds := bounds.(startTime := epoch);
      b' := b'[msg.metricName := bounds];
    }
    if !known || epoch > bounds.endTime {
      bounds := bounds.(endTime := epoch);
      b' := b'[msg.metricName := bounds];
    }
    TightStep(msgs, epochs, b, epoch, bounds);
    assert b' == b[msg.metricName := bounds];
  }

  /** Every envelope's epoch is pinned in its first row. */
  ghost predicate AllPinned(msgs: seq<Envelope>, epochs: seq<int>)
    reads FirstRows(msgs)
  {
    |epochs| == |msgs| && forall k :: 0 <= k < |msgs| ==> PinnedAt(msgs, k, epochs[k])
  }

  ghost predicate PinnedAt(msgs: seq<Envelope>, k: int, epoch: int)
    reads FirstRows(msgs)
  {
    0 <= k < |msgs| &&
    (msgs[k].data != [] ==>
      msgs[k].data[0] in FirstRows(msgs) && msgs[k].data[0].Pinned() && msgs[k].data[0].cells[EPOCH_COLUMN].i == epoch)
  }

  /** The bounds loop of `flush`: exact bounds, and every epoch they were computed from is now pinned in its row. */
  method BoundsOf(msgs: seq<Envelope>, clock: nat -> int) returns (b: map<string, Bounds>, ghost epochs: seq<int>)
    modifies FirstRows(msgs)
    ensures |epochs| == |msgs| && Tight(msgs, epochs, b)
    ensures AllPinned(msgs, epochs)
    ensures forall k :: 0 <= k < |msgs| && msgs[k].data != [] && old(msgs[k].data[0].Pinned()) ==>
              msgs[k].data[0].cells == old(msgs[k].data[0].cells)
  {
    b, epochs := map[], [];
    assert Tight(msgs, epochs, b);
    assert forall k :: 0 <= k < |msgs| && msgs[k].data != [] ==> msgs[k].data[0] in FirstRows(msgs);
    hide FirstRows, Tight;
    for i := 0 to |msgs|
      invariant |epochs| == i && Tight(msgs, epochs, b)
      invariant forall k :: 0 <= k < i ==> PinnedAt(msgs, k, epochs[k])
      invariant forall k :: 0 <= k < |msgs| && msgs[k].data != [] && old(msgs[k].data[0].Pinned()) ==>
              msgs[k].data[0].cells == old(msgs[k].data[0].cells)
    {
      var msg := msgs[i];
      if |msg.data| > 0 {
        var epoch := msg.data[0].GetEpoch(clock(i));
        b := Widen(msgs, epochs, b, i, epoch);
        epochs := epochs + [epoch];
      } else {
        TightSkip(msgs, epochs, b);
        epochs := epochs + [0];
      }
    }
  }

  /**
   * The time column of the row under the cursor: the envelope's epoch, asked for again at copy time. It
   * is the pinned one whatever the clock says, and no row changes.
   */
  method RowTime(c: Cursor, now: int, ghost epochs: seq<int>) returns (time: int)
    requires 0 <= c.envelopeIdx < |c.envelopes|
    requires 0 <= c.measurementIdx < |c.envelopes[c.envelopeIdx].data|
    requires AllPinned(c.envelopes, epochs)
    modifies c.envelopes[c.envelopeIdx].data[0]
    ensures time == epochs[c.envelopeIdx] && AllPinned(c.envelopes, epochs)
  {
    assert PinnedAt(c.envelopes, c.envelopeIdx, epochs[c.envelopeIdx]);
    ghost var before := c.envelopes[c.envelopeIdx].data[0].cells;
    time := c.envelopes[c.envelopeIdx].data[0].GetEpoch(now);
    assert c.envelopes[c.envelopeIdx].data[0].cells == before;
    forall k | 0 <= k < |c.envelopes| ensures PinnedAt(c.envelopes, k, epochs[k]) {
      assert old(PinnedAt(c.envelopes, k, epochs[k]));
    }
  }

  /** The bounds of a metric hold every epoch of its envelopes. */
  lemma {:induction false} EpochInsideBounds(msgs: seq<Envelope>, epochs: seq<int>, b: map<string, Bounds>, k: nat)
    requires |epochs| == |msgs| && Tight(msgs, epochs, b)
    requires k < |msgs| && msgs[k].data != []
    ensures Inside(b, msgs[k].metricName, epochs[k])
  {
    assert Counts(msgs, k, msgs[k].metricName);
  }

  /** The time lies inside the bounds of the metric. */
  predicate Inside(b: map<string, Bounds>, metric: string, time: int) {
    metric in b && b[metric].startTime <= time <= b[metric].endTime
  }
}
