/**
 * The loop of one database source (DbConnReaper): which due metrics are fetched at once, which wait
 * for the batch, what is remembered, and which metrics are taken out of the batch for a while.
 */
module SourceLoop {
  import opened BatchFetch
  import opened Scheduling
  import opened Sequences
  import opened SourceRound
  import TickInterval

  class DbConnReaper {
    const postgres: bool
    var lastFetch: map<string, int>
    var logParserStarted: bool
    var degraded: set<string>
    /** The envelopes put on the measurement channel, by metric. */
    var sent: seq<string>
    ghost var attempts: seq<Attempt>

    /**
     * On a Postgres source a metric is degraded exactly when its most recent attempt was an
     * individual fetch that failed, and no degraded metric was ever batched. Other sources have none.
     */
    ghost predicate Valid()
      reads this
    {
      if postgres then degraded == Failed(attempts) && BatchesSound(attempts) else degraded == {}
    }

    constructor (postgres: bool)
      ensures Valid() && this.postgres == postgres
      ensures lastFetch == map[] && !logParserStarted && degraded == {} && sent == [] && attempts == []
    {
      this.postgres := postgres;
      lastFetch, logParserStarted, degraded, sent, attempts := map[], false, {}, [], [];
    }

    method FetchMetric(e: Entry) returns (ok: bool)
      modifies this`sent, this`attempts
      ensures ok == e.alone.Rows?
      ensures sent == if Sends(e.alone) then old(sent) + [e.name] else old(sent)
      ensures attempts == old(attempts) + [AloneTry(e)]
      ensures postgres && old(Valid()) ==> BatchesSound(attempts)
      ensures postgres && old(Valid()) ==> Failed(attempts) == if ok then degraded - {e.name} else degraded + {e.name}
    {
      hide Failed, BatchesSound;
      ok := e.alone.Rows?;
      if Sends(e.alone) {
        sent := sent + [e.name];
      }
      FailedAppend(attempts, AloneTry(e));
      if postgres && Valid() {
        SoundAppend(attempts, AloneTry(e));
      }
      hide *;
      attempts := attempts + [AloneTry(e)];
    }

    /** The next answer of the batch; its rows are collected and sent. */
    method ReadAnswer(e: Entry, aborted: bool) returns (answer: Reply)
      requires postgres && Valid() && e.name !in degraded
      modifies this`sent, this`attempts
      ensures Valid()
      ensures answer == Answer(aborted, e.queued)
      ensures sent == if Sends(answer) then old(sent) + [e.name] else old(sent)
      ensures attempts == old(attempts) + [QueuedTry(e, aborted)]
    {
      hide Failed, BatchesSound;
      answer := Answer(aborted, e.queued);
      ghost var a := QueuedTry(e, aborted);
      FailedAppend(attempts, a);
      SoundAppend(attempts, a);
      attempts := attempts + [a];
      if Sends(answer) {
        sent := sent + [e.name];
      }
    }

    /** The first loop of executeBatch: the answers of the batch in order. */
    method ReadBatch(es: seq<Entry>) returns (retries: seq<Entry>, errs: nat)
      requires postgres && Valid() && Names(es) !! degraded
      modifies this`sent, this`attempts
      ensures Valid()
      ensures retries == Retries(es, false)
      ensures sent == old(sent) + Served(es, false)
      ensures errs == |Dropped(es, false)|
      ensures attempts == old(attempts) + QueuedTries(es, false)
    {
      retries, errs := [], 0;
      var aborted := false;
      assert es[0..] == es;
      assert es[|es|..] == [];
      assert forall i :: 0 <= i < |es| ==> es[i].name in Names(es);
      for i := 0 to |es|
        invariant Valid()
        invariant retries + Retries(es[i..], aborted) == Retries(es, false)
        invariant sent + Served(es[i..], aborted) == old(sent) + Served(es, false)
        invariant errs + |Dropped(es[i..], aborted)| == |Dropped(es, false)|
        invariant attempts + QueuedTries(es[i..], aborted) == old(attempts) + QueuedTries(es, false)
      {
        hide *;
        ghost var rest := aborted || Aborts(es[i].queued);
        ghost var reply := Answer(aborted, es[i].queued);
        Unroll(es, i, aborted);
        PutSplit(retries, reply.QueryErr?, es[i], Retries(es[i + 1..], rest));
        PutSplit(sent, Sends(reply), es[i].name, Served(es[i + 1..], rest));
        PutSplit([], reply.RowsErr?, es[i], Dropped(es[i + 1..], rest));
        Assoc(attempts, [QueuedTry(es[i], aborted)], QueuedTries(es[i + 1..], rest));
        var answer := ReadAnswer(es[i], aborted);
        if answer.QueryErr? {
          retries := retries + [es[i]];
        } else if answer.RowsErr? {
          errs := errs + 1;
        }
        aborted := aborted || Aborts(es[i].queued);
      }
    }

    /** The second loop of executeBatch: the refused entries one by one. */
    method RetryAll(retries: seq<Entry>) returns (errs: nat)
      requires postgres && Valid() && Distinct(retries) && Names(retries) !! degraded
      modifies this`sent, this`attempts, this`degraded
      ensures Valid()
      ensures sent == old(sent) + Delivered(retries)
      ensures degraded == old(degraded) + NameSet(Failing(retries))
      ensures errs == |Failing(retries)|
      ensures attempts == old(attempts) + AloneTries(retries)
    {
      errs := 0;
      assert retries[0..] == retries;
      assert retries[|retries|..] == [];
      assert Apart(retries[0..], degraded);
      for i := 0 to |retries|
        invariant Valid()
        invariant Apart(retries[i..], degraded)
        invariant sent + Delivered(retries[i..]) == old(sent) + Delivered(retries)
        invariant degraded + NameSet(Failing(retries[i..])) == old(degraded) + NameSet(Failing(retries))
        invariant errs + |Failing(retries[i..])| == |Failing(retries)|
        invariant attempts + AloneTries(retries[i..]) == old(attempts) + AloneTries(retries)
      {
        hide Failed, BatchesSound, Failing, Delivered, NameSet, Apart, Put, Distinct, Names, AloneTries;
        UnrollRetry(retries, i);
        ApartStep(retries[i..], degraded);
        assert retries[i..][1..] == retries[i + 1..];
        PutSplit(sent, Sends(retries[i].alone), retries[i].name, Delivered(retries[i + 1..]));
        PutSplit([], !retries[i].alone.Rows?, retries[i].name, Failing(retries[i + 1..]));
        Assoc(attempts, [AloneTry(retries[i])], AloneTries(retries[i + 1..]));
        SetShift(degraded, retries[i].name, NameSet(Failing(retries[i + 1..])));
        var ok := FetchMetric(retries[i]);
        if !ok {
          errs := errs + 1;
          degraded := degraded + {retries[i].name};
        }
      }
    }

    method ExecuteBatch(es: seq<Entry>) returns (errs: nat)
      requires postgres && Valid() && Distinct(es) && Names(es) !! degraded
      modifies this`sent, this`attempts, this`degraded
      ensures Valid()
      ensures sent == old(sent) + BatchSent(es)
      ensures attempts == old(attempts) + BatchTries(es)
      ensures degraded == old(degraded) + NameSet(Failing(Retries(es, false)))
      ensures errs == |Dropped(es, false)| + |Failing(Retries(es, false))|
      ensures old(sent) <= sent && OnceEach(sent[|old(sent)|..], es)
      ensures sent == old(sent) + Delivered(es) <==> Agrees(es)
      ensures Steady(es) ==> errs == |Failing(es)|
    {
      hide *;
      RetriesAreEntries(es, false);
      var retries, dropped := ReadBatch(es);
      errs := RetryAll(retries);
      errs := errs + dropped;
      BatchMeans(es, old(sent), old(attempts));
    }

    ghost function Books(batch: seq<Entry>): Book
      reads this
    {
      Book(lastFetch, degraded, sent, logParserStarted, batch, attempts)
    }

    lemma {:induction false} BooksAre(batch: seq<Entry>)
      ensures Books(batch) == Book(lastFetch, degraded, sent, logParserStarted, batch, attempts)
      ensures Before() == Channel(sent, attempts, logParserStarted)
    {
    }

    ghost function Before(): Channel
      reads this
    {
      Channel(sent, attempts, logParserStarted)
    }

    /** The body of the loop over the active metrics. */
    method Visit(r: Round, batch: seq<Entry>, n: string) returns (batch': seq<Entry>)
      requires Valid()
      requires Due(r.active, lastFetch, r.now, n) <==> Due(r.active, r.last, r.now, n)
      requires n in degraded <==> n in r.degraded
      modifies this
      ensures Valid()
      ensures Books(batch') == Visited(r, old(Books(batch)), n)
    {
      hide Failed, BatchesSound, Due;
      batch' := batch;
      if !Due(r.active, lastFetch, r.now, n) {
        return;
      }
      var f := r.facts(n);
      match KindOf(n, f) {
        case Skipped =>
          return;
        case Streaming =>
          logParserStarted := true;
          return;
        case Outside =>
          if Sends(f.alone) {
            sent := sent + [n];
          }
        case Cached =>
          sent := sent + [n];
        case NoSql =>
        case Query =>
          if n !in degraded {
            batch' := batch + [EntryOf(r, n)];
            return;
          }
          var ok := FetchMetric(EntryOf(r, n));
          if ok {
            degraded := degraded - {n};
          }
      }
      lastFetch := lastFetch[n := r.now + f.took];
    }

    /** The loop over the active metrics, in any order. */
    method VisitAll(r: Round) returns (batch: seq<Entry>)
      requires Valid() && r.last == lastFetch && r.degraded == degraded
      modifies this
      ensures Valid()
      ensures Progress(r, old(Before()), r.active.Keys, Books(batch))
    {
      hide Progress, Visited, Due, Failed, BatchesSound;
      batch := [];
      var todo := r.active.Keys;
      ghost var done := {};
      ProgressInit(r, Before());
      while todo != {}
        invariant Valid()
        invariant todo <= r.active.Keys && done == r.active.Keys - todo
        invariant Progress(r, old(Before()), done, Books(batch))
        decreases |todo|
      {
        var n :| n in todo;
        ProgressJudges(r, old(Before()), done, Books(batch), n);
        ProgressStep(r, old(Before()), done, Books(batch), n);
        batch := Visit(r, batch, n);
        todo := todo - {n};
        done := done + {n};
      }
      assert done == r.active.Keys;
    }

    /** Sources that are not Postgres fetch the waiting metrics one after the other. */
    method FetchAll(es: seq<Entry>)
      requires Valid() && !postgres
      modifies this`sent, this`attempts
      ensures Valid() && sent == old(sent) + Delivered(es) && attempts == old(attempts) + AloneTries(es)
    {
      assert es[0..] == es;
      assert es[|es|..] == [];
      for i := 0 to |es|
        invariant sent + Delivered(es[i..]) == old(sent) + Delivered(es)
        invariant attempts + AloneTries(es[i..]) == old(attempts) + AloneTries(es)
      {
        UnrollRetry(es, i);
        PutSplit(sent, Sends(es[i].alone), es[i].name, Delivered(es[i + 1..]));
        Assoc(attempts, [AloneTry(es[i])], AloneTries(es[i + 1..]));
        hide *;
        var _ := FetchMetric(es[i]);
      }
    }

    method RecordBatch(batch: seq<Entry>, end: int)
      modifies this`lastFetch
      ensures lastFetch == old(lastFetch) + AllAt(Names(batch), end)
    {
      for i := 0 to |batch|
        invariant lastFetch == old(lastFetch) + AllAt(Names(batch[..i]), end)
      {
        NamesAppend(batch, i);
        hide Names;
        AllAtMore(Names(batch[..i]), batch[i].name, end);
        MergeUpdate(old(lastFetch), AllAt(Names(batch[..i]), end), batch[i].name, end);
        hide AllAt;
        lastFetch := lastFetch[batch[i].name := end];
      }
      assert batch[..|batch|] == batch;
    }

    /** What the loop does with the waiting metrics. */
    method RunBatch(batch: seq<Entry>, end: int)
      requires Valid() && Distinct(batch) && Names(batch) !! degraded
      modifies this`sent, this`attempts, this`degraded, this`lastFetch
      ensures Valid()
      ensures lastFetch == old(lastFetch) + AllAt(Names(batch), end)
      ensures degraded == old(degraded) + if postgres then NameSet(Failing(Retries(batch, false))) else {}
      ensures sent == old(sent) + if postgres then BatchSent(batch) else Delivered(batch)
      ensures attempts == old(attempts) + if postgres then BatchTries(batch) else AloneTries(batch)
    {
      if |batch| > 0 {
        hide *;
        if postgres {
          var _ := ExecuteBatch(batch);
        } else {
          FetchAll(batch);
        }
        RecordBatch(batch, end);
      }
    }

    /** One iteration of the loop, which takes `duration` from its start to the end of the batch. */
    method Iterate(r: Round, duration: nat) returns (ghost p: Pass)
      requires Valid() && r.last == lastFetch && r.degraded == degraded
      modifies this
      ensures Valid()
      ensures p.round == r && p.duration == duration && PassOk(p)
      ensures lastFetch == r.last + Recorded(r, r.now + duration)
      ensures degraded == PassDegraded(postgres, p)
      ensures logParserStarted == (old(logParserStarted) || StreamsIn(r, r.active.Keys))
      ensures sent == old(sent) + PassSent(postgres, p)
      ensures attempts == old(attempts) + PassTries(postgres, p)
      ensures NoDup(PassSent(postgres, p))
      ensures AgreeingFacts(r) || !postgres ==> SendsExactly(r, PassSent(postgres, p))
    {
      hide *;
      BooksAre([]);
      var batch := VisitAll(r);
      BooksAre(batch);
      ProgressMeans(r, old(Before()), Books(batch), r.now + duration);
      p := PassFrom(r, duration, old(Before()), Books(batch));
      RunBatch(batch, r.now + duration);
      PassIs(postgres, p, old(sent), old(attempts));
      PassSends(postgres, p);
    }

    /**
     * The loop over any number of iterations, with the metrics active in each: what it records, sends,
     * tries and marks degraded is what its passes do, each starting from where the one before left off,
     * a tick later. With metrics that never change it leaves a legal timeline behind.
     */
    method Reap(start: int, envs: seq<Env>) returns (its: seq<Iter>, ticks: seq<int>, ghost passes: seq<Pass>)
      requires Valid() && lastFetch == map[]
      modifies this
      ensures Valid()
      ensures |its| == |envs| && RunOk(Setup(postgres, start, old(degraded)), envs, its, ticks, passes)
      ensures lastFetch == LastFetch(its)
      ensures degraded == DegradedAfter(postgres, old(degraded), passes)
      ensures sent == old(sent) + SentOver(postgres, passes)
      ensures attempts == old(attempts) + TriesOver(postgres, passes)
      ensures forall active, g :: Fixed(envs, active) && TickInterval.IsTick(active, g) ==>
        Legal(its, active, g) && ReadyAll(active, envs, its)
    {
      hide *;
      its, ticks, passes := [], [], [];
      ghost var s := Setup(postgres, start, degraded);
      RunInit(s, envs);
      var awake := start;
      for i := 0 to |envs|
        invariant Valid()
        invariant |its| == i && RunOk(s, envs, its, ticks, passes)
        invariant lastFetch == LastFetch(its) && degraded == DegradedAfter(postgres, old(degraded), passes)
        invariant sent == old(sent) + SentOver(postgres, passes)
        invariant attempts == old(attempts) + TriesOver(postgres, passes)
        invariant |ticks| == |its| && awake == if its == [] then start else its[i - 1].end + ticks[i - 1] * SECOND
      {
        var r := Round(envs[i].active, lastFetch, degraded, awake + envs[i].delay, envs[i].facts);
        StartIs(s, envs, its, ticks);
        ghost var p := Iterate(r, envs[i].duration);
        var tick := TickInterval.CalcTickInterval(envs[i].after);
        RunMore(s, envs, its, ticks, passes, p, tick);
        IterIs(r, envs[i].duration);
        its, ticks, passes := its + [IterOf(r, envs[i].duration)], ticks + [tick], passes + [p];
        awake := r.now + envs[i].duration + tick * SECOND;
      }
      assert its[..|its|] == its;
      forall active, g | Fixed(envs, active) && TickInterval.IsTick(active, g)
        ensures Legal(its, active, g) && ReadyAll(active, envs, its)
      {
        FixedRunIsLegal(s, envs, its, ticks, passes, active, g, |its|);
        RunIsReady(s, envs, its, ticks, passes, active);
      }
    }
  }
}
