/**
 * The Postgres sink as a state machine over values: what each message offered, each turn of the polling
 * loop and each end of the wait does to the channel, the cache and what has been copied.
 */
module SinkSteps {
  import opened Metrics
  import opened CopyCursor
  import opened Sequences
  import opened SinkFlush
  import opened SinkFlushTheorems
  import opened SinkPoll
  import opened SortedKeys
  import opened Strings

  datatype Event =
    | Send(msg: Envelope, late: bool)
    | Receive(outcomes: nat -> Outcome, clock: nat -> int)
    | Tick(outcomes: nat -> Outcome, clock: nat -> int)
    | Stop

  datatype Sink = Sink(
    input: seq<Envelope>,
    cache: seq<Envelope>,
    stopped: bool,
    accepted: seq<Envelope>,
    batches: seq<seq<Envelope>>,
    copied: set<nat>)

  /** The COPY of the batch's metric number `i`, by name, is reached and succeeds. */
  ghost predicate Succeeds(outcomes: nat -> Outcome, i: nat) {
    outcomes(i).Completes? && Reached(outcomes, i)
  }

  /** One COPY per metric of the batch, in the order of their names, until the database is unreachable. */
  ghost predicate MetricSucceeds(batch: seq<Envelope>, outcomes: nat -> Outcome, metric: string) {
    var names := Sorted(MetricsFrom(batch, 0));
    exists i :: 0 <= i < |names| && names[i] == metric && Succeeds(outcomes, i)
  }

  /** Message number `e` is in the batch, which begins at number `lo`, and its metric is copied. */
  ghost predicate CopiedAt(batch: seq<Envelope>, outcomes: nat -> Outcome, lo: nat, e: nat) {
    lo <= e < lo + |batch| && MetricSucceeds(batch, outcomes, batch[e - lo].metricName)
  }

  ghost function CopiedNow(batch: seq<Envelope>, outcomes: nat -> Outcome, lo: nat): set<nat> {
    set e: nat | lo <= e < lo + |batch| && CopiedAt(batch, outcomes, lo, e)
  }

  ghost function FlushStep(s: Sink, outcomes: nat -> Outcome): Sink {
    if s.cache == [] then s
    else s.(
      cache := [], batches := s.batches + [s.cache],
      copied := s.copied + CopiedNow(s.cache, outcomes, |Concat(s.batches)|))
  }

  ghost function Step(s: Sink, e: Event): Sink {
    match e {
      case Send(msg, late) =>
        if s.stopped || late || |s.input| >= CACHE_LIMIT then s
        else s.(input := s.input + [msg], accepted := s.accepted + [msg])
      case Receive(outcomes, _) =>
        if s.stopped || s.input == [] then s
        else
          var s' := s.(input := s.input[1..], cache := s.cache + [s.input[0]]);
          if |s'.cache| < CACHE_LIMIT then s' else FlushStep(s', outcomes)
      case Tick(outcomes, _) =>
        if s.stopped then s else FlushStep(s, outcomes)
      case Stop =>
        s.(stopped := true)
    }
  }

  ghost function Steps(s: Sink, events: seq<Event>): Sink {
    if events == [] then s else Step(Steps(s, events[..|events| - 1]), events[|events| - 1])
  }

  lemma {:induction false} StepsNone(s: Sink)
    ensures Steps(s, []) == s
  {
  }

  lemma {:induction false} StepsMore(s: Sink, events: seq<Event>, i: nat)
    requires i < |events|
    ensures Steps(s, events[..i + 1]) == Step(Steps(s, events[..i]), events[i])
  {
    hide Step;
    assert events[..i + 1][..i] == events[..i];
  }

  /** Nothing accepted is forgotten: it is flushed, cached or still in the channel. */
  ghost predicate Conserved(s: Sink) {
    s.accepted == Concat(s.batches) + s.cache + s.input
  }

  lemma {:induction false} StepConserves(s: Sink, e: Event)
    requires Conserved(s)
    ensures Conserved(Step(s, e)) && s.accepted <= Step(s, e).accepted && s.batches <= Step(s, e).batches
    ensures s.copied <= Step(s, e).copied
  {
    hide Concat, FlushStep;
    if e.Send? {
      assert Concat(s.batches) + s.cache + (s.input + [e.msg]) == Concat(s.batches) + s.cache + s.input + [e.msg];
    } else if e.Tick? {
      FlushConserves(s, e.outcomes);
    } else if e.Receive? && s.input != [] {
      var s' := s.(input := s.input[1..], cache := s.cache + [s.input[0]]);
      assert s.input == [s.input[0]] + s.input[1..];
      assert Concat(s.batches) + (s.cache + [s.input[0]]) + s.input[1..] == Concat(s.batches) + s.cache + s.input;
      FlushConserves(s', e.outcomes);
    }
  }

  lemma {:induction false} FlushConserves(s: Sink, outcomes: nat -> Outcome)
    requires Conserved(s)
    ensures var t := FlushStep(s, outcomes); Conserved(t) && t.accepted == s.accepted && s.batches <= t.batches && s.copied <= t.copied
  {
    ConcatMore(s.batches, s.cache);
    hide Concat, CopiedNow;
  }

  lemma {:induction false} StepsConserve(s: Sink, events: seq<Event>)
    requires Conserved(s)
    ensures Conserved(Steps(s, events)) && s.accepted <= Steps(s, events).accepted && s.batches <= Steps(s, events).batches
    ensures s.copied <= Steps(s, events).copied
  {
    hide Conserved, Step;
    if events != [] {
      StepsConserve(s, events[..|events| - 1]);
      StepConserves(Steps(s, events[..|events| - 1]), events[|events| - 1]);
    }
  }

  /** The sink has ended: at the beginning, or by one of the events. */
  ghost predicate Ended(stopped: bool, events: seq<Event>) {
    stopped || exists i :: 0 <= i < |events| && events[i].Stop?
  }

  /** Message `i` was offered in time, to a sink that had not ended, and met a channel with room. */
  ghost predicate TakenIn(s: Sink, events: seq<Event>, i: nat)
    requires i < |events|
  {
    && events[i].Send? && !events[i].late && !Ended(s.stopped, events[..i])
    && |Steps(s, events[..i]).input| < 256
  }

  /** The offered messages that were taken in, in order. */
  ghost function Offered(s: Sink, events: seq<Event>, n: nat): seq<Envelope>
    requires n <= |events|
  {
    if n == 0 then [] else Offered(s, events, n - 1) + if TakenIn(s, events, n - 1) then [events[n - 1].msg] else []
  }

  lemma {:induction false} EndedMore(stopped: bool, events: seq<Event>, i: nat)
    requires i < |events|
    ensures Ended(stopped, events[..i + 1]) <==> Ended(stopped, events[..i]) || events[i].Stop?
  {
    assert forall k :: 0 <= k < i ==> events[..i + 1][k] == events[..i][k];
    assert events[..i + 1][i] == events[i];
    if Ended(stopped, events[..i]) && !stopped {
      var k :| 0 <= k < i && events[..i][k].Stop?;
      assert events[..i + 1][k].Stop?;
    }
  }

  lemma {:induction false} StepAccepts(s: Sink, e: Event)
    ensures Step(s, e).stopped <==> s.stopped || e.Stop?
    ensures Step(s, e).accepted ==
      if e.Send? && !e.late && !s.stopped && |s.input| < 256 then s.accepted + [e.msg] else s.accepted
    ensures s.stopped ==> Step(s, e) == s
  {
    hide CopiedNow, Concat;
  }

  /**
   * Over any run, the accepted messages are exactly the offered ones that were in time, met a sink that had not
   * ended and met a channel with room, in the order of the offers; and the sink has ended exactly if it was told to.
   */
  lemma {:induction false} AcceptedAre(s: Sink, events: seq<Event>, n: nat)
    requires n <= |events|
    ensures Steps(s, events[..n]).accepted == s.accepted + Offered(s, events, n)
    ensures Steps(s, events[..n]).stopped <==> Ended(s.stopped, events[..n])
  {
    hide *;
    OfferedIs(s, events, n);
    if n == 0 {
      StepsNone(s);
      NeverEnded(s.stopped);
      assert events[..0] == [];
    } else {
      AcceptedAre(s, events, n - 1);
      StepsMore(s, events, n - 1);
      EndedMore(s.stopped, events, n - 1);
      StepAccepts(Steps(s, events[..n - 1]), events[n - 1]);
    }
  }

  lemma {:induction false} OfferedIs(s: Sink, events: seq<Event>, n: nat)
    requires n <= |events|
    ensures n == 0 ==> Offered(s, events, n) == []
    ensures n > 0 ==>
      var e, before := events[n - 1], events[..n - 1];
      Offered(s, events, n) == Offered(s, events, n - 1) +
        if e.Send? && !e.late && !Ended(s.stopped, before) && |Steps(s, before).input| < 256 then [e.msg] else []
  {
    hide Steps, Ended;
  }

  lemma {:induction false} NeverEnded(stopped: bool)
    ensures Ended(stopped, []) <==> stopped
  {
  }

  /** After its end nothing happens to the sink any more. */
  lemma {:induction false} StoppedForGood(s: Sink, events: seq<Event>)
    requires s.stopped
    ensures Steps(s, events) == s
  {
    hide Step;
    if events != [] {
      StoppedForGood(s, events[..|events| - 1]);
      StepAccepts(s, events[|events| - 1]);
    }
  }

  /** Whatever is in the channel and the cache is flushed by receiving it all and waiting once. */
  lemma {:induction false} Drains(s: Sink, outcomes: nat -> Outcome, clock: nat -> int)
    requires !s.stopped
    ensures var end := Steps(s, seq(|s.input|, i => Receive(outcomes, clock)) + [Tick(outcomes, clock)]);
            end.input == [] && end.cache == [] && end.accepted == s.accepted && !end.stopped
    ensures Conserved(s) ==>
              Concat(Steps(s, seq(|s.input|, i => Receive(outcomes, clock)) + [Tick(outcomes, clock)]).batches) == s.accepted
  {
    var events := seq(|s.input|, i => Receive(outcomes, clock)) + [Tick(outcomes, clock)];
    Received(s, events, outcomes, clock, |s.input|);
    StepsMore(s, events, |s.input|);
    assert events[..|s.input| + 1] == events;
    if Conserved(s) {
      StepsConserve(s, events);
    }
    hide Steps, CopiedNow, Concat;
    assert s.input[|s.input|..] == [];
  }

  lemma {:induction false} Received(s: Sink, events: seq<Event>, outcomes: nat -> Outcome, clock: nat -> int, n: nat)
    requires !s.stopped && n <= |s.input| && n <= |events|
    requires forall i :: 0 <= i < n ==> events[i] == Receive(outcomes, clock)
    ensures var t := Steps(s, events[..n]); t.input == s.input[n..] && t.accepted == s.accepted && !t.stopped
  {
    if n > 0 {
      Received(s, events, outcomes, clock, n - 1);
      StepsMore(s, events, n - 1);
      hide Steps, CopiedNow;
      assert s.input[n - 1..][1..] == s.input[n..];
    }
  }

  /* ---- what the COPY calls of a flush amount to ---- */

  /** The metrics of the runs from envelope `b` on. */
  ghost function RunNames(envs: seq<Envelope>, b: nat): seq<string>
    requires b <= |envs|
    decreases |envs| - b
  {
    if b == |envs| then [] else [envs[b].metricName] + RunNames(envs, RunEnd(envs, envs[b].metricName, b))
  }

  lemma {:induction false} RunNamesAt(envs: seq<Envelope>, b: nat, i: nat)
    requires b <= |envs|
    ensures |RunNames(envs, b)| == |Runs(envs, b)|
    ensures i < |Runs(envs, b)| ==> Runs(envs, b)[i].lo < |envs| && RunNames(envs, b)[i] == envs[Runs(envs, b)[i].lo].metricName
    decreases |envs| - b
  {
    if b < |envs| {
      RunNamesAt(envs, RunEnd(envs, envs[b].metricName, b), if i == 0 then 0 else i - 1);
    }
  }

  lemma {:induction false} RunNamesSorted(envs: seq<Envelope>, b: nat)
    requires b <= |envs| && SortedByMetric(envs)
    ensures Ascending(RunNames(envs, b)) && Lists(RunNames(envs, b), MetricsFrom(envs, b))
    decreases |envs| - b
  {
    if b < |envs| {
      var name := envs[b].metricName;
      var end := RunEnd(envs, name, b);
      RunNamesSorted(envs, end);
      NeverComesBack(envs, b);
      RunMetrics(envs, b);
      var rest := RunNames(envs, end);
      forall j | 0 <= j < |rest| ensures LexLe(name, rest[j]) && rest[j] != name {
        assert rest[j] in rest && rest[j] in MetricsFrom(envs, end);
      }
      hide LexLe, MetricsFrom, RunEnd, SortedByMetric;
      ListsCons(name, rest, MetricsFrom(envs, end));
    } else {
      assert MetricsFrom(envs, b) == {};
    }
  }

  lemma {:induction false} RunMetrics(envs: seq<Envelope>, b: nat)
    requires b < |envs|
    ensures var end := RunEnd(envs, envs[b].metricName, b);
            b < end <= |envs| && MetricsFrom(envs, b) == {envs[b].metricName} + MetricsFrom(envs, end)
  {
  }

  lemma {:induction false} ListsCons(name: string, rest: seq<string>, names: set<string>)
    requires Ascending(rest) && Lists(rest, names)
    requires forall j :: 0 <= j < |rest| ==> LexLe(name, rest[j]) && rest[j] != name
    ensures Ascending([name] + rest) && Lists([name] + rest, {name} + names)
  {
    hide LexLe;
  }

  /** The calls of a flush are the COPYs of the batch's metrics, in the order of their names. */
  lemma {:induction false} CallTables(batch: seq<Envelope>, order: seq<nat>, calls: seq<Call>)
    requires IsSorting(batch, order) && InRange(order, |batch|)
    requires var envs := Arrange(batch, order); ServesAll(envs, Runs(envs, 0), calls)
    ensures var names := Sorted(MetricsFrom(batch, 0));
            && |names| == |Runs(Arrange(batch, order), 0)| >= |calls|
            && forall i :: 0 <= i < |calls| ==> calls[i].table == names[i]
  {
    var envs := Arrange(batch, order);
    SortedArrangement(batch, order);
    RunNamesSorted(envs, 0);
    SameMetrics(batch, order);
    OnlyOne(RunNames(envs, 0), Sorted(MetricsFrom(batch, 0)), MetricsFrom(batch, 0));
    RunNamesAt(envs, 0, 0);
    hide IsSorting, Runs, RunNames, SortedByMetric, MetricsFrom, Ascending, Lists, Rows;
    forall i | 0 <= i < |calls| ensures calls[i].table == Sorted(MetricsFrom(batch, 0))[i] {
      RunNamesAt(envs, 0, i);
      assert Serves(envs, Runs(envs, 0)[i], calls[i]);
    }
  }

  lemma {:induction false} SameMetrics(batch: seq<Envelope>, order: seq<nat>)
    requires IsSorting(batch, order) && InRange(order, |batch|)
    ensures MetricsFrom(Arrange(batch, order), 0) == MetricsFrom(batch, 0)
  {
    hide LexLe, NoDup;
    forall k | 0 <= k < |batch| ensures batch[k].metricName in MetricsFrom(Arrange(batch, order), 0) {
      assert k in order;
      var j :| 0 <= j < |order| && order[j] == k;
      assert Arrange(batch, order)[j] == batch[k];
    }
  }

  /** What `CopyAll` promises about outcomes. */
  ghost predicate Answered(calls: seq<Call>, outcomes: nat -> Outcome, runs: nat) {
    && Matches(calls, outcomes) && 0 < |calls| <= runs && Reached(outcomes, |calls| - 1)
    && (|calls| < runs ==> Unreachable(outcomes(|calls| - 1)))
  }

  lemma {:induction false} CallSucceeds(calls: seq<Call>, outcomes: nat -> Outcome, runs: nat, i: nat)
    requires Answered(calls, outcomes, runs) && i < runs
    ensures Succeeds(outcomes, i) <==> i < |calls| && calls[i].ok
  {
    if i < |calls| {
      assert calls[i].ok <==> outcomes(i).Completes?;
    }
  }

  /** A metric of the batch is copied exactly when its COPY is reached and succeeds. */
  lemma {:induction false} CopiedMeans(batch: seq<Envelope>, order: seq<nat>, calls: seq<Call>, outcomes: nat -> Outcome, metric: string)
    requires IsSorting(batch, order) && InRange(order, |batch|)
    requires var envs := Arrange(batch, order);
             ServesAll(envs, Runs(envs, 0), calls) && Answered(calls, outcomes, |Runs(envs, 0)|)
    ensures MetricCopied(calls, metric) <==> MetricSucceeds(batch, outcomes, metric)
  {
    CallTables(batch, order, calls);
    var names, runs := Sorted(MetricsFrom(batch, 0)), |Runs(Arrange(batch, order), 0)|;
    hide IsSorting, ServesAll, Runs, Answered, Succeeds, MetricsFrom, Ascending, Lists;
    if MetricCopied(calls, metric) {
      var i :| 0 <= i < |calls| && calls[i].ok && calls[i].table == metric;
      CallSucceeds(calls, outcomes, runs, i);
      assert names[i] == metric && Succeeds(outcomes, i);
    }
    if MetricSucceeds(batch, outcomes, metric) {
      var i :| 0 <= i < |names| && names[i] == metric && Succeeds(outcomes, i);
      CallSucceeds(calls, outcomes, runs, i);
      assert calls[i].table == metric;
    }
  }
}
