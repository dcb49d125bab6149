/**
 * What an iteration does for each metric, said on the facts it meets: whether the metric is defined and allowed
 * for the role, served by the operating system or the cache, has a query, and how the server answers.
 */
module SourceFacts {
  import opened BatchFetch
  import opened Scheduling
  import opened Sequences
  import opened SourceRound
  import TickInterval

  /** The metric has an interval, and it has passed since the last recorded fetch. */
  predicate IsDue(r: Round, n: string) {
    n in r.active && r.active[n] > 0 && (n in r.last ==> r.now - r.last[n] >= r.active[n] * 1_000_000_000)
  }

  predicate Allowed(f: Facts) {
    f.defined && !f.roleExcluded
  }

  /** Fetched without asking the database: operating system readings and the two metrics with code of their own. */
  predicate OwnFetcher(n: string, f: Facts) {
    f.direct || n == "change_events" || n == "instance_up"
  }

  predicate HasRows(reply: Reply) {
    reply.Rows? && reply.count > 0
  }

  /** The fetch times the pass records. */
  function Records(p: Pass): map<string, int> {
    Recorded(p.round, p.round.now + p.duration)
  }

  function Times(names: seq<string>, n: string): nat {
    multiset(names)[n]
  }

  /** The pass makes no attempt at the metric. */
  ghost predicate NoAttempt(postgres: bool, p: Pass, n: string) {
    forall a :: a in PassTries(postgres, p) ==> a.name != n
  }

  ghost predicate InBatch(p: Pass, n: string) {
    exists k :: 0 <= k < |p.batch| && p.batch[k].name == n
  }

  /** Neither recorded nor sent, batched or tried. */
  ghost predicate Untouched(postgres: bool, p: Pass, n: string) {
    n !in Records(p) && Times(PassSent(postgres, p), n) == 0 && !InBatch(p, n) && NoAttempt(postgres, p, n)
  }

  /* ---- from the loop's own terms ---- */

  lemma {:induction false} TryNames(es: seq<Entry>, aborted: bool, a: Attempt)
    ensures a in QueuedTries(es, aborted) ==> a.name in Names(es)
    ensures a in AloneTries(es) ==> a.name in Names(es)
  {
    if es != [] {
      NamesTail(es);
      TryNames(es[1..], aborted || Aborts(es[0].queued), a);
      hide Names;
    }
  }

  lemma {:induction false} LateTries(postgres: bool, es: seq<Entry>, a: Attempt)
    requires a in (if postgres then BatchTries(es) else AloneTries(es))
    ensures a.name in Names(es)
  {
    hide Names, QueuedTries, AloneTries, Retries;
    TryNames(es, false, a);
    TryNames(Retries(es, false), false, a);
    RetriesAreEntries(es, false);
  }

  lemma {:induction false} LateSent(postgres: bool, es: seq<Entry>, n: string)
    requires Distinct(es) && n in (if postgres then BatchSent(es) else Delivered(es))
    ensures n in Names(es)
  {
    hide Names, Served, Delivered, Retries, Distinct;
    SentAtMostOnce(es);
    DeliveredOnce(es);
  }

  lemma {:induction false} InBatchIff(p: Pass, n: string)
    ensures InBatch(p, n) <==> n in Names(p.batch)
  {
  }

  lemma {:induction false} EarlyOnes(p: Pass, n: string)
    requires PassOk(p)
    ensures n in p.early <==> n in p.round.active && AtOnce(p.round, n) && Yields(p.round, n)
    ensures n in Names(p.batch) <==> n in p.round.active && Waits(p.round, n)
    ensures Distinct(p.batch)
    ensures forall a :: a in p.tries <==> a.name in p.round.active && Tries(p.round, a.name) && a == AloneTry(EntryOf(p.round, a.name))
  {
    hide Tries, AtOnce, Yields, Waits, AloneTry, EntryOf, Distinct;
    assert n in p.early <==> n in NameSet(p.early);
  }

  /** A metric that is not left for the batch. */
  lemma {:induction false} WithoutBatch(postgres: bool, p: Pass, n: string)
    requires PassOk(p) && !(n in p.round.active && Waits(p.round, n))
    ensures !InBatch(p, n)
    ensures Times(PassSent(postgres, p), n) == if n in p.round.active && AtOnce(p.round, n) && Yields(p.round, n) then 1 else 0
    ensures forall a :: a in PassTries(postgres, p) && a.name == n ==>
      n in p.round.active && Tries(p.round, n) && a == AloneTry(EntryOf(p.round, n))
    ensures n in p.round.active && Tries(p.round, n) ==> AloneTry(EntryOf(p.round, n)) in PassTries(postgres, p)
  {
    InBatchIff(p, n);
    EarlyOnes(p, n);
    PassSends(postgres, p);
    hide PassOk, Tries, AtOnce, Yields, Waits, EntryOf, Distinct, Names, BatchSent, BatchTries, AloneTries, Delivered, NoDup, InBatch;
    OnceIn(PassSent(postgres, p), n);
    var late := if postgres then BatchSent(p.batch) else Delivered(p.batch);
    assert n !in late by {
      if n in late {
        LateSent(postgres, p.batch, n);
      }
    }
    assert n in PassSent(postgres, p) <==> n in p.early;
    forall a | a in PassTries(postgres, p) && a.name == n ensures a in p.tries {
      if a in (if postgres then BatchTries(p.batch) else AloneTries(p.batch)) {
        LateTries(postgres, p.batch, a);
      }
    }
  }

  /* ---- on the facts ---- */

  lemma {:induction false} DueIs(r: Round, n: string)
    ensures IsDue(r, n) <==> Due(r.active, r.last, r.now, n)
  {
  }

  /**
   * A metric that is not due, not defined, not for the role of the server, or the one the log parser serves, is left
   * alone.
   */
  lemma {:induction false} LeftAlone(postgres: bool, p: Pass, n: string)
    requires PassOk(p)
    requires !IsDue(p.round, n) || !p.round.facts(n).defined || p.round.facts(n).roleExcluded || n == "server_log_event_counts"
    ensures Untouched(postgres, p, n)
  {
    DueIs(p.round, n);
    WithoutBatch(postgres, p, n);
    hide PassOk, PassSent, PassTries, InBatch, Due;
  }

  /** Readings of the operating system and the metrics with code of their own never enter the batch. */
  lemma {:induction false} FetchedOutside(postgres: bool, p: Pass, n: string)
    requires PassOk(p) && IsDue(p.round, n) && Allowed(p.round.facts(n)) && n != "server_log_event_counts"
    requires OwnFetcher(n, p.round.facts(n))
    ensures !InBatch(p, n) && NoAttempt(postgres, p, n)
    ensures n in Records(p) && Records(p)[n] == p.round.now + p.round.facts(n).took
    ensures Times(PassSent(postgres, p), n) == if HasRows(p.round.facts(n).alone) then 1 else 0
  {
    DueIs(p.round, n);
    WithoutBatch(postgres, p, n);
    hide PassOk, PassSent, PassTries, InBatch, Due;
  }

  /** A metric the instance cache serves is sent once, without a question to the server. */
  lemma {:induction false} ServedFromCache(postgres: bool, p: Pass, n: string)
    requires PassOk(p) && IsDue(p.round, n) && Allowed(p.round.facts(n)) && n != "server_log_event_counts"
    requires !OwnFetcher(n, p.round.facts(n)) && p.round.facts(n).cacheHit
    ensures !InBatch(p, n) && NoAttempt(postgres, p, n)
    ensures n in Records(p) && Records(p)[n] == p.round.now + p.round.facts(n).took
    ensures Times(PassSent(postgres, p), n) == 1
  {
    DueIs(p.round, n);
    WithoutBatch(postgres, p, n);
    hide PassOk, PassSent, PassTries, InBatch, Due;
  }

  /** A metric without a query for the server's version is recorded and nothing else. */
  lemma {:induction false} WithoutQuery(postgres: bool, p: Pass, n: string)
    requires PassOk(p) && IsDue(p.round, n) && Allowed(p.round.facts(n)) && n != "server_log_event_counts"
    requires !OwnFetcher(n, p.round.facts(n)) && !p.round.facts(n).cacheHit && !p.round.facts(n).hasSql
    ensures !InBatch(p, n) && NoAttempt(postgres, p, n)
    ensures n in Records(p) && Records(p)[n] == p.round.now + p.round.facts(n).took
    ensures Times(PassSent(postgres, p), n) == 0
  {
    DueIs(p.round, n);
    WithoutBatch(postgres, p, n);
    hide PassOk, PassSent, PassTries, InBatch, Due;
  }

  /** The metric's query is to be run. */
  predicate Asks(n: string, f: Facts) {
    Allowed(f) && n != "server_log_event_counts" && !OwnFetcher(n, f) && !f.cacheHit && f.hasSql
  }

  /** The query of a degraded metric is run by itself, once, and its rows are sent. */
  lemma {:induction false} DegradedAlone(postgres: bool, p: Pass, n: string)
    requires PassOk(p) && IsDue(p.round, n) && Asks(n, p.round.facts(n)) && n in p.round.degraded
    ensures !InBatch(p, n) && n in Records(p) && Records(p)[n] == p.round.now + p.round.facts(n).took
    ensures Times(PassSent(postgres, p), n) == if HasRows(p.round.facts(n).alone) then 1 else 0
    ensures forall a :: a in PassTries(postgres, p) && a.name == n <==> a == Attempt(n, true, p.round.facts(n).alone.Rows?)
  {
    DueIs(p.round, n);
    WithoutBatch(postgres, p, n);
    hide PassOk, PassSent, PassTries, InBatch, Due;
  }

  /** Any other query waits for the batch and is recorded at its end. */
  lemma {:induction false} WaitsForBatch(p: Pass, n: string)
    requires PassOk(p)
    ensures InBatch(p, n) <==> IsDue(p.round, n) && Asks(n, p.round.facts(n)) && n !in p.round.degraded
    ensures InBatch(p, n) ==> n in Records(p) && Records(p)[n] == p.round.now + p.duration
    ensures forall k :: 0 <= k < |p.batch| && p.batch[k].name == n ==>
      p.batch[k] == Entry(n, p.round.facts(n).queued, p.round.facts(n).alone)
  {
    DueIs(p.round, n);
    InBatchIff(p, n);
    EarlyOnes(p, n);
    hide Names, Distinct, Due, InBatch, NameSet;
  }

  /** The log parser is running exactly if it ran before or its metric is due, defined and allowed. */
  lemma {:induction false} LogParserStarts(r: Round)
    ensures StreamsIn(r, r.active.Keys) <==>
      IsDue(r, "server_log_event_counts") && Allowed(r.facts("server_log_event_counts"))
  {
    DueIs(r, "server_log_event_counts");
    if IsDue(r, "server_log_event_counts") && Allowed(r.facts("server_log_event_counts")) {
      assert Streams(r, "server_log_event_counts");
    }
    hide Due;
  }

  /* ---- inside the batch ---- */

  /** Nothing before entry `k` has made the server abort the batch. */
  ghost predicate Unbroken(es: seq<Entry>, k: nat) {
    forall j :: 0 <= j < k && j < |es| ==> es[j].queued.Rows? || (es[j].queued.RowsErr? && !es[j].queued.aborts)
  }

  /** The batch answers entry `k` rather than refusing it. */
  ghost predicate Answered(es: seq<Entry>, k: nat)
    requires k < |es|
  {
    Unbroken(es, k) && !es[k].queued.QueryErr?
  }

  lemma {:induction false} UnbrokenTail(es: seq<Entry>, k: nat)
    requires 0 < k < |es|
    ensures Unbroken(es, k) <==> !Aborts(es[0].queued) && Unbroken(es[1..], k - 1)
  {
    assert forall j :: 0 < j < |es| ==> es[1..][j - 1] == es[j];
    if Unbroken(es, k) {
      forall j | 0 <= j < k - 1 ensures es[1..][j].queued.Rows? || (es[1..][j].queued.RowsErr? && !es[1..][j].queued.aborts) {
        assert es[j + 1] == es[1..][j];
      }
    }
  }

  lemma {:induction false} ServedIsEntry(es: seq<Entry>, aborted: bool, n: string)
    requires n !in Names(es) && Distinct(es)
    ensures n !in Served(es, aborted) && n !in Names(Retries(es, aborted))
    ensures forall a :: a in QueuedTries(es, aborted) ==> a.name != n
  {
    hide Names, Served, Retries, QueuedTries, Distinct;
    ServedOnce(es, aborted);
    RetriesAreEntries(es, aborted);
    forall a | a in QueuedTries(es, aborted) ensures a.name != n {
      TryNames(es, aborted, a);
    }
  }

  /** What reading the batch does to its entry `k`. */
  lemma {:induction false} EntryRead(es: seq<Entry>, aborted: bool, k: nat)
    requires Distinct(es) && k < |es|
    ensures es[k].name in Served(es, aborted) <==> !aborted && Answered(es, k) && HasRows(es[k].queued)
    ensures es[k] in Retries(es, aborted) <==> aborted || !Answered(es, k)
    ensures es[k].name in Names(Retries(es, aborted)) <==> es[k] in Retries(es, aborted)
    ensures forall a :: a in QueuedTries(es, aborted) && a.name == es[k].name <==>
      a == Attempt(es[k].name, false, !aborted && Unbroken(es, k) && es[k].queued.Rows?)
  {
    var e, rest, aborted' := es[0], es[1..], aborted || Aborts(es[0].queued);
    NamesTail(es);
    assert Served(es, aborted) == Put(Sends(Answer(aborted, e.queued)), e.name, Served(rest, aborted'));
    assert Retries(es, aborted) == Put(Answer(aborted, e.queued).QueryErr?, e, Retries(rest, aborted'));
    assert QueuedTries(es, aborted) == [QueuedTry(e, aborted)] + QueuedTries(rest, aborted');
    NamesPut(Answer(aborted, e.queued).QueryErr?, e, Retries(rest, aborted'));
    if k == 0 {
      ServedIsEntry(rest, aborted', e.name);
      InNames(Retries(rest, aborted'), e);
    } else {
      EntryRead(rest, aborted', k - 1);
      UnbrokenTail(es, k);
      NameThere(rest, k - 1);
    }
    hide Served, Retries, QueuedTries, Names, Distinct, Unbroken;
  }

  lemma {:induction false} NameThere(es: seq<Entry>, k: nat)
    requires k < |es|
    ensures es[k].name in Names(es)
  {
  }

  lemma {:induction false} InNames(es: seq<Entry>, e: Entry)
    ensures e in es ==> e.name in Names(es)
  {
    if e in es {
      var i :| 0 <= i < |es| && es[i] == e;
    }
  }

  lemma {:induction false} NamesPut(c: bool, e: Entry, es: seq<Entry>)
    ensures Names(Put(c, e, es)) == (if c then {e.name} else {}) + Names(es)
  {
    NamesTail([e] + es);
    assert ([e] + es)[1..] == es;
    hide Names;
  }

  /** What fetching the entries one by one does to one of them. */
  lemma {:induction false} EntryAlone(es: seq<Entry>, e: Entry)
    requires Distinct(es) && e in es
    ensures e.name in Delivered(es) <==> HasRows(e.alone)
    ensures e.name in Failing(es) <==> !e.alone.Rows?
    ensures forall a :: a in AloneTries(es) && a.name == e.name <==> a == Attempt(e.name, true, e.alone.Rows?)
  {
    var d, rest := es[0], es[1..];
    NamesTail(es);
    assert Delivered(es) == Put(Sends(d.alone), d.name, Delivered(rest));
    assert Failing(es) == Put(!d.alone.Rows?, d.name, Failing(rest));
    assert AloneTries(es) == [AloneTry(d)] + AloneTries(rest);
    if e == d {
      NotThere(rest, e.name);
    } else {
      EntryAlone(rest, e);
      InNames(rest, e);
    }
    hide Delivered, Failing, AloneTries, Names, Distinct;
  }

  lemma {:induction false} NotThere(es: seq<Entry>, n: string)
    requires n !in Names(es) && Distinct(es)
    ensures n !in Delivered(es) && n !in Failing(es) && forall a :: a in AloneTries(es) ==> a.name != n
  {
    if es != [] {
      NamesTail(es);
      NotThere(es[1..], n);
      hide Names, Distinct;
    }
  }

  /** What a batch and its retries do to entry `k`: its rows are those of the batch if that answers it, else those it gives alone. */
  lemma {:induction false} EntryFate(es: seq<Entry>, k: nat)
    requires Distinct(es) && k < |es|
    ensures es[k].name in BatchSent(es) <==> HasRows(if Answered(es, k) then es[k].queued else es[k].alone)
    ensures es[k].name in Failing(Retries(es, false)) <==> !Answered(es, k) && !es[k].alone.Rows?
    ensures forall a :: a in BatchTries(es) && a.name == es[k].name <==>
      || a == Attempt(es[k].name, false, Unbroken(es, k) && es[k].queued.Rows?)
      || (!Answered(es, k) && a == Attempt(es[k].name, true, es[k].alone.Rows?))
  {
    EntryRead(es, false, k);
    RetriesAreEntries(es, false);
    hide Served, Retries, QueuedTries, AloneTries, Names, Distinct, Delivered, Failing, Unbroken;
    var rs := Retries(es, false);
    if es[k] in rs {
      EntryAlone(rs, es[k]);
    } else {
      NotThere(rs, es[k].name);
    }
  }

  /** What a pass does with the query that waited as entry `k` of its batch. */
  lemma {:induction false} BatchedFate(postgres: bool, p: Pass, k: nat)
    requires PassOk(p) && k < |p.batch|
    ensures var e := p.batch[k];
      && Times(PassSent(postgres, p), e.name) == (if HasRows(if postgres && Answered(p.batch, k) then e.queued else e.alone) then 1 else 0)
      && (forall a :: a in PassTries(postgres, p) && a.name == e.name <==>
            if postgres then
              || a == Attempt(e.name, false, Unbroken(p.batch, k) && e.queued.Rows?)
              || (!Answered(p.batch, k) && a == Attempt(e.name, true, e.alone.Rows?))
            else a == Attempt(e.name, true, e.alone.Rows?))
      && (e.name in PassDegraded(postgres, p) <==> postgres && !Answered(p.batch, k) && !e.alone.Rows?)
  {
    var e := p.batch[k];
    PassSends(postgres, p);
    EarlyOnes(p, e.name);
    NameThere(p.batch, k);
    BatchedAreFresh(p, e.name);
    PassIs(postgres, p, [], []);
    EntryFate(p.batch, k);
    EntryAlone(p.batch, e);
    hide PassOk, Names, Distinct, BatchSent, BatchTries, AloneTries, Delivered, Failing, Retries, NoDup, RecoveredIn, PassDegraded;
    hide Answered, Unbroken, Tries, AtOnce, Yields, Waits, AloneTry, EntryOf, NameSet;
    OnceIn(PassSent(postgres, p), e.name);
    InNameSet(Failing(Retries(p.batch, false)), e.name);
  }

  lemma {:induction false} InNameSet(ns: seq<string>, n: string)
    ensures n in NameSet(ns) <==> n in ns
  {
  }

  lemma {:induction false} BatchedAreFresh(p: Pass, n: string)
    requires PassOk(p) && n in Names(p.batch)
    ensures n !in p.round.degraded && !AtOnce(p.round, n) && !Tries(p.round, n)
  {
    EarlyOnes(p, n);
  }

  /** A metric outside the batch is degraded afterwards if it was before and was not fetched with success now. */
  lemma {:induction false} StillDegraded(postgres: bool, p: Pass, n: string)
    requires PassOk(p) && !InBatch(p, n)
    ensures n in PassDegraded(postgres, p) <==>
      n in p.round.degraded && !(IsDue(p.round, n) && Asks(n, p.round.facts(n)) && p.round.facts(n).alone.Rows?)
  {
    var r := p.round;
    DueIs(r, n);
    InBatchIff(p, n);
    EarlyOnes(p, n);
    NotFailing(p, n);
    assert n in r.active || !IsDue(r, n);
    hide Names, Distinct, Due, InBatch, Failing, Retries, NameSet;
  }

  lemma {:induction false} NotFailing(p: Pass, n: string)
    requires PassOk(p) && n !in Names(p.batch)
    ensures n !in NameSet(Failing(Retries(p.batch, false)))
  {
    EarlyOnes(p, n);
    hide PassOk, Names, Distinct, Failing, Retries, NameSet;
    RetriesAreEntries(p.batch, false);
    NotThere(Retries(p.batch, false), n);
    InNameSet(Failing(Retries(p.batch, false)), n);
  }

  /* ---- over runs ---- */

  /** Every pass of a run is one all of this is about, and its records are those of its iteration. */
  lemma {:induction false} PassInRun(s: Setup, envs: seq<Env>, its: seq<Iter>, ticks: seq<int>, passes: seq<Pass>, i: nat)
    requires RunOk(s, envs, its, ticks, passes) && i < |its|
    ensures PassOk(passes[i]) && passes[i].round.facts == envs[i].facts && passes[i].round.active == envs[i].active
    ensures its[i].rec == Records(passes[i]) && its[i].now == passes[i].round.now
  {
    assert RunStep(s, envs, its, ticks, passes, i);
    hide PassOk, LastFetch, DegradedAfter, TickInterval.IsTick;
    IterIs(passes[i].round, envs[i].duration);
  }

  /** No iteration of the run finds the metric defined and allowed for the role. */
  ghost predicate NeverAllowed(envs: seq<Env>, n: string) {
    forall i :: 0 <= i < |envs| ==> !envs[i].facts(n).defined || envs[i].facts(n).roleExcluded
  }

  lemma {:induction false} PrefixUntouched(postgres: bool, passes: seq<Pass>, n: string)
    requires forall i :: 0 <= i < |passes| ==> Untouched(postgres, passes[i], n)
    ensures n !in SentOver(postgres, passes) && forall a :: a in TriesOver(postgres, passes) ==> a.name != n
  {
    if passes != [] {
      var before, p := passes[..|passes| - 1], passes[|passes| - 1];
      PrefixUntouched(postgres, before, n);
      assert Untouched(postgres, p, n);
      hide PassSent, PassTries, Records, InBatch;
      assert Times(PassSent(postgres, p), n) == 0 <==> n !in PassSent(postgres, p);
    }
  }

  /** Over a run, a metric that is never allowed is never recorded, sent or tried. */
  lemma {:induction false} NeverTouched(s: Setup, envs: seq<Env>, its: seq<Iter>, ticks: seq<int>, passes: seq<Pass>, n: string)
    requires RunOk(s, envs, its, ticks, passes) && NeverAllowed(envs, n)
    ensures n !in SentOver(s.postgres, passes) && forall a :: a in TriesOver(s.postgres, passes) ==> a.name != n
    ensures forall i :: 0 <= i < |its| ==> n !in its[i].rec
  {
    hide RunStep, Untouched;
    forall i | 0 <= i < |its| ensures Untouched(s.postgres, passes[i], n) && n !in its[i].rec {
      PassInRun(s, envs, its, ticks, passes, i);
      LeftAlone(s.postgres, passes[i], n);
      NotRecorded(s.postgres, passes[i], n);
    }
    PrefixUntouched(s.postgres, passes, n);
  }

  lemma {:induction false} NotRecorded(postgres: bool, p: Pass, n: string)
    requires Untouched(postgres, p, n)
    ensures n !in Records(p)
  {
    hide Records;
  }
}
