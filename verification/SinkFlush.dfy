/** The COPY loop of `flush`: what each COPY draws, and what a whole flush draws. */
module SinkFlush {
  import opened Metrics
  import opened CopyCursor
  import opened PartitionBounds

  /** How one COPY ends: every row taken, or an error after some calls of Next. */
  datatype Outcome =
    | Completes
    | FailsAfter(nexts: nat, badValue: bool, unreachable: bool)

  /** The error leaves no point in going on with the other metrics. */
  predicate Unreachable(outcome: Outcome) {
    outcome.FailsAfter? && outcome.unreachable
  }

  /** No COPY before number `n` stops the flush. */
  ghost predicate Reached(outcomes: nat -> Outcome, n: nat) {
    forall i: nat :: i < n ==> !Unreachable(outcomes(i))
  }

  /** One COPY: its target table, the rows it drew and the times it gave them, whether it succeeded. */
  datatype Call = Call(table: string, drawn: seq<Place>, times: seq<int>, ok: bool)

  /** Every drawn row got the epoch of its envelope. */
  ghost predicate Stamped(epochs: seq<int>, drawn: seq<Place>, times: seq<int>) {
    |times| == |drawn| && forall k :: 0 <= k < |drawn| ==> drawn[k].env < |epochs| && times[k] == epochs[drawn[k].env]
  }

  ghost predicate AllStamped(epochs: seq<int>, calls: seq<Call>) {
    forall i :: 0 <= i < |calls| ==> Stamped(epochs, calls[i].drawn, calls[i].times)
  }

  /** A maximal run of envelopes of one metric. */
  datatype Run = Run(lo: nat, hi: nat)

  /** One row asked for and, if there is one, its values taken. */
  method Draw(c: Cursor, now: int, ghost epochs: seq<int>) returns (more: bool, place: Place, time: int)
    requires c.Valid() && !c.EOF() && AllPinned(c.envelopes, epochs)
    modifies c`envelopeIdx, c`measurementIdx, c`metricName, FirstRows(c.envelopes)
    ensures AllPinned(c.envelopes, epochs)
    ensures more ==> Drawn(c.envelopes, old(c.Here()), c.Here()) && place == Place(c.envelopeIdx, c.measurementIdx)
    ensures more ==> place.env < |epochs| && time == epochs[place.env]
    ensures !more ==> Left(c.envelopes, old(c.Here()), c.Here())
  {
    place, time := Place(0, 0), 0;
    hide AllPinned, Left;
    more := c.Next();
    if more {
      place := Place(c.envelopeIdx, c.measurementIdx);
      FirstRowOf(c.envelopes, c.envelopeIdx, epochs);
      time := RowTime(c, now, epochs);
    }
  }

  /** How the driver uses a row source: Next until it answers false, or until something fails. */
  method CopyFrom(c: Cursor, outcome: Outcome, clock: nat -> int, ghost epochs: seq<int>)
    returns (drawn: seq<Place>, times: seq<int>, ok: bool)
    requires c.Valid() && !c.EOF() && !c.err && c.metricName == "" && c.At() < |c.envelopes|
    requires AllPinned(c.envelopes, epochs)
    modifies c, FirstRows(c.envelopes)
    ensures AllPinned(c.envelopes, epochs) && Stamped(epochs, drawn, times)
    ensures c.Valid() && (c.envelopeIdx == -1 ==> old(c.envelopeIdx) == -1)
    ensures drawn <= old(c.Pending())
    ensures ok <==> outcome.Completes?
    ensures ok ==> drawn == old(c.Pending()) && !c.err && AtHead(c.envelopes, c.Here(), old(c.End()))
    ensures RunEnd(c.envelopes, c.envelopes[old(c.At())].metricName, c.At()) == old(c.End())
  {
    hide PendingOf, EndOf, Copying, AllPinned, Stamped, ValidPos, RunEnd, AtHead, Drawn, Left;
    drawn, times := [], [];
    ghost var p, envs, rows := c.Here(), c.envelopes, c.Pending();
    CopyingInit(c);
    StampedNone(epochs);
    var drained, nexts := false, 0;
    while !drained && (outcome.Completes? || nexts < outcome.nexts)
      invariant !c.err && AllPinned(envs, epochs) && Stamped(epochs, drawn, times)
      invariant Copying(envs, p, c.Here(), drained, drawn)
      decreases !drained, |rows| - |drawn|
    {
      ghost var q := c.Here();
      CursorIs(c, p, drained, drawn);
      var more, place, time := Draw(c, clock(nexts), epochs);
      nexts := nexts + 1;
      CopyingStep(c, p, q, drawn);
      if more {
        StampedMore(epochs, drawn, times, place, time);
        drawn, times := drawn + [place], times + [time];
      } else {
        drained := true;
      }
    }
    ok := outcome.Completes?;
    if outcome.FailsAfter? && outcome.badValue {
      c.err := true;
    }
    CopyingEnd(c, p, drained, drawn);
  }

  /** A COPY that began at `p` stands at `q` and has drawn `drawn`. */
  ghost predicate Copying(envs: seq<Envelope>, p: Pos, q: Pos, drained: bool, drawn: seq<Place>) {
    && ValidPos(envs, p) && ValidPos(envs, q) && p.metric == "" && NextStart(envs, p) < |envs|
    && drawn <= PendingOf(envs, p) && (q.env == -1 ==> p.env == -1)
    && (drained ==> drawn == PendingOf(envs, p) && AtHead(envs, q, EndOf(envs, p)))
    && (!drained ==> drawn + PendingOf(envs, q) == PendingOf(envs, p) && EndOf(envs, q) == EndOf(envs, p) && q.env < |envs|)
    && (!drained ==> q == p || q.metric == envs[NextStart(envs, p)].metricName)
  }

  lemma {:induction false} CopyingInit(c: Cursor)
    requires c.Valid() && !c.EOF() && c.metricName == "" && c.At() < |c.envelopes|
    ensures Copying(c.envelopes, c.Here(), c.Here(), false, [])
  {
    hide PendingOf, EndOf;
  }

  lemma {:induction false} CursorIs(c: Cursor, p: Pos, drained: bool, drawn: seq<Place>)
    requires Copying(c.envelopes, p, c.Here(), drained, drawn)
    ensures c.Valid() && (!drained ==> !c.EOF())
  {
    hide PendingOf, EndOf;
  }

  lemma {:induction false} CopyingStep(c: Cursor, p: Pos, q: Pos, drawn: seq<Place>)
    requires Copying(c.envelopes, p, q, false, drawn)
    ensures Drawn(c.envelopes, q, c.Here()) ==>
        && 0 <= c.envelopeIdx && 0 <= c.measurementIdx
        && Copying(c.envelopes, p, c.Here(), false, drawn + [Place(c.envelopeIdx, c.measurementIdx)])
        && |drawn| < |PendingOf(c.envelopes, p)|
    ensures Left(c.envelopes, q, c.Here()) ==> Copying(c.envelopes, p, c.Here(), true, drawn)
  {
    hide PendingOf, EndOf;
    var envs, q' := c.envelopes, c.Here();
    if Drawn(envs, q, q') {
      var place := Place(q'.env, q'.row);
      assert drawn + ([place] + PendingOf(envs, q')) == drawn + [place] + PendingOf(envs, q');
    }
    if Left(envs, q, q') {
      assert drawn + [] == drawn;
    }
  }

  lemma {:induction false} CopyingEnd(c: Cursor, p: Pos, drained: bool, drawn: seq<Place>)
    requires Copying(c.envelopes, p, c.Here(), drained, drawn)
    ensures c.Valid() && (c.envelopeIdx == -1 ==> p.env == -1) && drawn <= PendingOf(c.envelopes, p)
    ensures drained ==> drawn == PendingOf(c.envelopes, p) && AtHead(c.envelopes, c.Here(), EndOf(c.envelopes, p))
    ensures RunEnd(c.envelopes, c.envelopes[NextStart(c.envelopes, p)].metricName, c.At()) == EndOf(c.envelopes, p)
  {
    hide PendingOf;
  }

  lemma {:induction false} StampedNone(epochs: seq<int>)
    ensures Stamped(epochs, [], [])
  {
  }

  lemma {:induction false} StampedMore(epochs: seq<int>, drawn: seq<Place>, times: seq<int>, place: Place, time: int)
    requires Stamped(epochs, drawn, times) && place.env < |epochs| && time == epochs[place.env]
    ensures Stamped(epochs, drawn + [place], times + [time])
  {
  }

  lemma {:induction false} FirstRowOf(envs: seq<Envelope>, k: int, epochs: seq<int>)
    requires 0 <= k < |envs| && envs[k].data != [] && AllPinned(envs, epochs)
    ensures envs[k].data[0] in FirstRows(envs) && |epochs| == |envs|
  {
  }

  /** The maximal runs of one metric from envelope `b` on. */
  function Runs(envs: seq<Envelope>, b: nat): (r: seq<Run>)
    requires b <= |envs|
    decreases |envs| - b
  {
    if b == |envs| then []
    else
      var end := RunEnd(envs, envs[b].metricName, b);
      [Run(b, end)] + Runs(envs, end)
  }

  /** A COPY served one run: the run's table, a prefix of the run's rows, all of them on success. */
  ghost predicate Serves(envs: seq<Envelope>, run: Run, call: Call) {
    && run.lo < run.hi <= |envs|
    && (forall k :: run.lo <= k < run.hi ==> envs[k].metricName == call.table)
    && call.drawn <= Rows(envs, run.lo, run.hi)
    && (call.ok ==> call.drawn == Rows(envs, run.lo, run.hi))
  }

  /** The calls serve the runs in order, one call per run. */
  ghost predicate ServesAll(envs: seq<Envelope>, runs: seq<Run>, calls: seq<Call>) {
    && |calls| <= |runs|
    && forall i :: 0 <= i < |calls| ==> Serves(envs, runs[i], calls[i])
  }

  /** Each call succeeded exactly when its outcome says so. */
  ghost predicate Matches(calls: seq<Call>, outcomes: nat -> Outcome) {
    forall i :: 0 <= i < |calls| ==> (calls[i].ok <==> outcomes(i).Completes?)
  }

  lemma {:induction false} MatchesAppend(calls: seq<Call>, call: Call, outcomes: nat -> Outcome)
    requires Matches(calls, outcomes) && (call.ok <==> outcomes(|calls|).Completes?)
    ensures Matches(calls + [call], outcomes)
  {
  }

  lemma {:induction false} ServesAppend(envs: seq<Envelope>, done: seq<Run>, calls: seq<Call>, run: Run, call: Call, rest: seq<Run>)
    requires |done| == |calls| && ServesAll(envs, done, calls) && Serves(envs, run, call)
    ensures ServesAll(envs, done + [run], calls + [call])
    ensures done + ([run] + rest) == (done + [run]) + rest
  {
  }

  lemma {:induction false} ServesPrefix(envs: seq<Envelope>, done: seq<Run>, rest: seq<Run>, calls: seq<Call>)
    requires ServesAll(envs, done, calls)
    ensures ServesAll(envs, done + rest, calls)
  {
  }

  /** One turn of the loop: COPY the next run and, on failure, drop what is left of it. */
  method CopyRun(c: Cursor, ghost b: nat, outcome: Outcome, clock: nat -> int, ghost epochs: seq<int>) returns (call: Call)
    requires AtHead(c.envelopes, c.Here(), b) && b < |c.envelopes| && !c.err
    requires AllPinned(c.envelopes, epochs)
    modifies c, FirstRows(c.envelopes)
    ensures AllPinned(c.envelopes, epochs) && Stamped(epochs, call.drawn, call.times)
    ensures RunEnd(c.envelopes, c.envelopes[b].metricName, b) > b
    ensures var end := RunEnd(c.envelopes, c.envelopes[b].metricName, b);
            && Serves(c.envelopes, Run(b, end), call)
            && AtHead(c.envelopes, c.Here(), end)
            && (c.EOF() <==> end == |c.envelopes|)
    ensures !c.err && (call.ok <==> outcome.Completes?)
  {
    ghost var end := RunEnd(c.envelopes, c.envelopes[b].metricName, b);
    assert c.End() == end && c.Pending() == Rows(c.envelopes, b, end);
    hide PendingOf, NamesSet, Rows, AllPinned, Stamped;
    var metric := c.MetricName();
    var drawn, times, ok := CopyFrom(c, outcome, clock, epochs);
    call := Call(metric[0], drawn, times, ok);
    if !ok {
      c.SkipMetric(metric);
    }
  }

  /** The loop of `flush` over the sorted messages: one COPY per metric run, whatever the outcomes. */
  method CopyAll(envs: seq<Envelope>, outcomes: nat -> Outcome, clock: nat -> int, ghost epochs: seq<int>) returns (calls: seq<Call>)
    requires NamesSet(envs) && envs != [] && AllPinned(envs, epochs)
    modifies FirstRows(envs)
    ensures AllPinned(envs, epochs) && AllStamped(epochs, calls)
    ensures ServesAll(envs, Runs(envs, 0), calls)
    ensures Matches(calls, outcomes)
    ensures calls != [] && Reached(outcomes, |calls| - 1)
    ensures |calls| < |Runs(envs, 0)| ==> Unreachable(outcomes(|calls| - 1))
    ensures forall i: nat :: i < |calls| - 1 ==> !(outcomes(i).FailsAfter? && outcomes(i).unreachable)
    ensures |calls| < |Runs(envs, 0)| ==> outcomes(|calls| - 1).FailsAfter? && outcomes(|calls| - 1).unreachable
  {
    hide AllStamped, Flushing, ServesAll, Runs, Matches, Reached, ValidPos, NextStart, NamesSet;
    var c := new Cursor(envs);
    calls := CopyRuns(c, outcomes, clock, epochs);
    ReachedMeans(outcomes, |calls| - 1);
  }

  lemma {:induction false} ReachedMeans(outcomes: nat -> Outcome, n: nat)
    requires Reached(outcomes, n)
    ensures forall i: nat :: i < n ==> !(outcomes(i).FailsAfter? && outcomes(i).unreachable)
  {
  }

  method CopyRuns(c: Cursor, outcomes: nat -> Outcome, clock: nat -> int, ghost epochs: seq<int>) returns (calls: seq<Call>)
    requires c.envelopes != [] && c.Valid() && c.At() == 0 && c.envelopeIdx == -1 && c.metricName == "" && !c.err
    requires AllPinned(c.envelopes, epochs)
    modifies c, FirstRows(c.envelopes)
    ensures AllPinned(c.envelopes, epochs) && AllStamped(epochs, calls)
    ensures ServesAll(c.envelopes, Runs(c.envelopes, 0), calls)
    ensures Matches(calls, outcomes)
    ensures calls != [] && Reached(outcomes, |calls| - 1)
    ensures |calls| < |Runs(c.envelopes, 0)| ==> Unreachable(outcomes(|calls| - 1))
  {
    hide *;
    calls := [];
    FlushingInit(c, outcomes, epochs);
    ghost var at: nat, envs, done: seq<Run> := 0, c.envelopes, [];
    var halted := false;
    while !c.EOF() && !halted
      invariant c.envelopes == envs && !c.err
      invariant AllPinned(envs, epochs) && AllStamped(epochs, calls)
      invariant AtHead(envs, c.Here(), at) && at <= |envs| && (c.EOF() <==> at == |envs|)
      invariant Flushing(envs, at, done, calls, outcomes, halted)
      decreases !halted, |envs| - at
    {
      var outcome := outcomes(|calls|);
      var call := CopyRun(c, at, outcome, clock, epochs);
      ghost var end := RunEnd(envs, envs[at].metricName, at);
      FlushingStep(envs, at, done, calls, outcomes, call);
      StampedCall(epochs, calls, call);
      calls, done, at := calls + [call], done + [Run(at, end)], end;
      halted := outcome.FailsAfter? && outcome.unreachable;
    }
    FlushingEnd(envs, at, done, calls, outcomes, halted);
  }

  /** The loop stands before envelope `at`, has served the runs `done`, and goes on unless it has halted. */
  ghost predicate Flushing(envs: seq<Envelope>, at: nat, done: seq<Run>, calls: seq<Call>, outcomes: nat -> Outcome, halted: bool) {
    && at <= |envs| && Runs(envs, 0) == done + Runs(envs, at) && |done| == |calls| && ServesAll(envs, done, calls)
    && Matches(calls, outcomes) && (at == 0 <==> calls == [])
    && (if halted then calls != [] && Reached(outcomes, |calls| - 1) && Unreachable(outcomes(|calls| - 1))
        else Reached(outcomes, |calls|))
  }

  lemma {:induction false} FlushingInit(c: Cursor, outcomes: nat -> Outcome, epochs: seq<int>)
    requires c.envelopes != [] && c.Valid() && c.At() == 0 && c.envelopeIdx == -1 && c.metricName == ""
    ensures Flushing(c.envelopes, 0, [], [], outcomes, false) && AllStamped(epochs, [])
    ensures AtHead(c.envelopes, c.Here(), 0) && !c.EOF()
  {
    assert [] + Runs(c.envelopes, 0) == Runs(c.envelopes, 0);
  }

  lemma {:induction false} StampedCall(epochs: seq<int>, calls: seq<Call>, call: Call)
    requires AllStamped(epochs, calls) && Stamped(epochs, call.drawn, call.times)
    ensures AllStamped(epochs, calls + [call])
  {
    hide Stamped;
  }

  lemma {:induction false} FlushingStep(envs: seq<Envelope>, at: nat, done: seq<Run>, calls: seq<Call>, outcomes: nat -> Outcome, call: Call)
    requires Flushing(envs, at, done, calls, outcomes, false) && at < |envs|
    requires at < RunEnd(envs, envs[at].metricName, at) <= |envs| && Serves(envs, Run(at, RunEnd(envs, envs[at].metricName, at)), call)
    requires call.ok <==> outcomes(|calls|).Completes?
    ensures var end, o := RunEnd(envs, envs[at].metricName, at), outcomes(|calls|);
            Flushing(envs, end, done + [Run(at, end)], calls + [call], outcomes, o.FailsAfter? && o.unreachable)
  {
    hide Serves, ServesAll, Matches, RunEnd, Runs;
    var end := RunEnd(envs, envs[at].metricName, at);
    RunsFirst(envs, at);
    ServesAppend(envs, done, calls, Run(at, end), call, Runs(envs, end));
    MatchesAppend(calls, call, outcomes);
  }

  lemma {:induction false} RunsFirst(envs: seq<Envelope>, at: nat)
    requires at < |envs| && at < RunEnd(envs, envs[at].metricName, at) <= |envs|
    ensures var end := RunEnd(envs, envs[at].metricName, at); Runs(envs, at) == [Run(at, end)] + Runs(envs, end)
  {
  }

  lemma {:induction false} FlushingEnd(envs: seq<Envelope>, at: nat, done: seq<Run>, calls: seq<Call>, outcomes: nat -> Outcome, halted: bool)
    requires envs != [] && Flushing(envs, at, done, calls, outcomes, halted) && (halted || at == |envs|)
    ensures ServesAll(envs, Runs(envs, 0), calls) && Matches(calls, outcomes)
    ensures calls != [] && Reached(outcomes, |calls| - 1)
    ensures |calls| < |Runs(envs, 0)| ==> Unreachable(outcomes(|calls| - 1))
  {
    assert at == |envs| ==> Runs(envs, at) == [];
    hide Serves, ServesAll, Matches, RunEnd, Runs;
    ServesPrefix(envs, done, Runs(envs, at), calls);
  }
}
