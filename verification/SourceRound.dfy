/**
 * One iteration of a database source's loop, as values: what it starts from, what it does for each
 * metric, what it records and sends, and which metrics its attempts leave degraded.
 */
module SourceRound {
  import opened BatchFetch
  import Metrics
  import opened Scheduling
  import opened Sequences
  import TickInterval

  const CHANGE_EVENTS := "change_events"
  const SERVER_LOG_EVENT_COUNTS := "server_log_event_counts"

  /**
   * What one iteration meets for one metric: its definition and role, whether the operating system
   * or the instance cache serves it, the answers of the server, and how long after the iteration's start an immediate fetch ends.
   */
  datatype Facts = Facts(
    defined: bool,
    roleExcluded: bool,
    direct: bool,
    cacheHit: bool,
    hasSql: bool,
    queued: Reply,
    alone: Reply,
    took: nat)

  datatype Kind = Skipped | Streaming | Outside | Cached | NoSql | Query

  /** The branches of the loop body. */
  function KindOf(n: string, f: Facts): Kind {
    if !f.defined || f.roleExcluded then Skipped
    else if n == SERVER_LOG_EVENT_COUNTS then Streaming
    else if f.direct then Outside
    else if n == CHANGE_EVENTS || n == Metrics.INSTANCE_UP then Outside
    else if f.cacheHit then Cached
    else if !f.hasSql then NoSql
    else Query
  }

  predicate Records(k: Kind) {
    !k.Skipped? && !k.Streaming?
  }

  datatype Attempt = Attempt(name: string, individual: bool, ok: bool)

  /** The attempt an individual fetch is. */
  function AloneTry(e: Entry): Attempt {
    Attempt(e.name, true, e.alone.Rows?)
  }

  /** The attempt an entry's turn in the batch is. */
  function QueuedTry(e: Entry, aborted: bool): Attempt {
    Attempt(e.name, false, Answer(aborted, e.queued).Rows?)
  }

  function AloneTries(es: seq<Entry>): seq<Attempt> {
    if es == [] then [] else [AloneTry(es[0])] + AloneTries(es[1..])
  }

  function QueuedTries(es: seq<Entry>, aborted: bool): seq<Attempt> {
    if es == [] then [] else [QueuedTry(es[0], aborted)] + QueuedTries(es[1..], aborted || Aborts(es[0].queued))
  }

  /** The metrics whose most recent attempt was an individual fetch that failed. */
  function Failed(h: seq<Attempt>): set<string> {
    if h == [] then {}
    else
      var a := h[|h| - 1];
      if a.individual && !a.ok then Failed(h[..|h| - 1]) + {a.name} else Failed(h[..|h| - 1]) - {a.name}
  }

  ghost predicate LastAttempt(h: seq<Attempt>, n: string, i: int) {
    0 <= i < |h| && h[i].name == n && forall j :: i < j < |h| ==> h[j].name != n
  }

  lemma {:induction false} FailedMeans(h: seq<Attempt>, n: string)
    ensures n in Failed(h) <==> exists i :: LastAttempt(h, n, i) && h[i].individual && !h[i].ok
  {
    if h != [] {
      var k := |h| - 1;
      if h[k].name == n {
        assert LastAttempt(h, n, k);
      } else {
        FailedMeans(h[..k], n);
        assert forall i :: LastAttempt(h, n, i) <==> LastAttempt(h[..k], n, i);
      }
    }
  }

  lemma {:induction false} FailedAppend(h: seq<Attempt>, a: Attempt)
    ensures Failed(h + [a]) == if a.individual && !a.ok then Failed(h) + {a.name} else Failed(h) - {a.name}
  {
    assert (h + [a])[..|h|] == h;
  }

  /** No metric was batched right after a failed individual fetch of it. */
  ghost predicate BatchesSound(h: seq<Attempt>) {
    forall i :: 0 <= i < |h| && !h[i].individual ==> h[i].name !in Failed(h[..i])
  }

  lemma {:induction false} SoundAppend(h: seq<Attempt>, a: Attempt)
    requires BatchesSound(h) && (a.individual || a.name !in Failed(h))
    ensures BatchesSound(h + [a])
  {
    forall i | 0 <= i < |h + [a]| && !(h + [a])[i].individual ensures (h + [a])[i].name !in Failed((h + [a])[..i]) {
      assert (h + [a])[..i] == if i < |h| then h[..i] else h;
    }
  }

  function Names(es: seq<Entry>): set<string> {
    set i | 0 <= i < |es| :: es[i].name
  }

  ghost predicate Distinct(es: seq<Entry>) {
    forall i, j :: 0 <= i < j < |es| ==> es[i].name != es[j].name
  }

  lemma {:induction false} RetriesAreEntries(es: seq<Entry>, aborted: bool)
    ensures Names(Retries(es, aborted)) <= Names(es)
    ensures Distinct(es) ==> Distinct(Retries(es, aborted))
  {
    if es != [] {
      var rest := Retries(es[1..], aborted || Aborts(es[0].queued));
      RetriesAreEntries(es[1..], aborted || Aborts(es[0].queued));
      NamesTail(es);
      hide Retries;
      if Distinct(es) {
        assert Distinct([es[0]] + rest) by {
          forall j | 0 <= j < |rest| ensures rest[j].name != es[0].name {
            assert rest[j].name in Names(es[1..]);
          }
        }
      }
      NamesTail([es[0]] + rest);
      assert ([es[0]] + rest)[1..] == rest;
    }
  }

  lemma {:induction false} NamesTail(es: seq<Entry>)
    requires es != []
    ensures Names(es) == {es[0].name} + Names(es[1..])
    ensures Distinct(es) ==> es[0].name !in Names(es[1..]) && Distinct(es[1..])
  {
    forall n ensures n in Names(es) <==> n == es[0].name || n in Names(es[1..]) {
      if n in Names(es) && n != es[0].name {
        var i :| 0 <= i < |es| && es[i].name == n;
        assert es[1..][i - 1].name == n;
      }
      if n in Names(es[1..]) {
        var i :| 0 <= i < |es[1..]| && es[1..][i].name == n;
        assert es[i + 1].name == n;
      }
    }
  }

  lemma {:induction false} AppendName(ns: seq<string>, n: string)
    requires NoDup(ns) && n !in NameSet(ns)
    ensures NoDup(ns + [n])
  {
    assert forall i :: 0 <= i < |ns| ==> (ns + [n])[i] == ns[i];
  }

  /** Entries of different metrics, none of them degraded. */
  ghost predicate Apart(es: seq<Entry>, degraded: set<string>) {
    Distinct(es) && Names(es) !! degraded
  }

  lemma {:induction false} ApartStep(es: seq<Entry>, degraded: set<string>)
    requires Apart(es, degraded) && es != []
    ensures es[0].name !in degraded
    ensures Apart(es[1..], degraded) && Apart(es[1..], degraded + {es[0].name})
  {
    NamesTail(es);
  }

  lemma {:induction false} SetShift(a: set<string>, x: string, b: set<string>)
    ensures a + ({x} + b) == (a + {x}) + b
    ensures a + ({} + b) == a + b
  {
  }

  /** The metrics one-by-one fetching of distinct entries sends, each once. */
  lemma {:induction false} DeliveredNames(es: seq<Entry>)
    requires Distinct(es)
    ensures NoDup(Delivered(es))
    ensures forall n :: n in Delivered(es) <==> exists i :: 0 <= i < |es| && es[i].name == n && Sends(es[i].alone)
  {
    if es != [] {
      NamesTail(es);
      DeliveredNames(es[1..]);
      assert forall i :: 0 <= i < |es| - 1 ==> es[1..][i] == es[i + 1];
      assert es[0].name !in Delivered(es[1..]) by {
        assert forall i :: 0 <= i < |es[1..]| ==> es[1..][i].name in Names(es[1..]);
      }
      forall n ensures n in Delivered(es) <==> exists i :: 0 <= i < |es| && es[i].name == n && Sends(es[i].alone) {
        if n in Delivered(es[1..]) {
          var i :| 0 <= i < |es[1..]| && es[1..][i].name == n && Sends(es[1..][i].alone);
          assert es[i + 1].name == n;
        }
        if i :| 0 <= i < |es| && es[i].name == n && Sends(es[i].alone) {
          assert i > 0 ==> es[1..][i - 1].name == n;
        }
      }
    }
  }

  /** What an iteration starts from. */
  datatype Round = Round(
    active: map<string, int>,
    last: map<string, int>,
    degraded: set<string>,
    now: int,
    facts: string -> Facts)

  function KindIn(r: Round, n: string): Kind {
    KindOf(n, r.facts(n))
  }

  /** The metric is fetched in this iteration and its fetch recorded. */
  predicate Fetches(r: Round, n: string) {
    Due(r.active, r.last, r.now, n) && Records(KindIn(r, n))
  }

  /** The metric's query is left for the batch. */
  predicate Waits(r: Round, n: string) {
    Due(r.active, r.last, r.now, n) && KindIn(r, n).Query? && n !in r.degraded
  }

  predicate AtOnce(r: Round, n: string) {
    Fetches(r, n) && !Waits(r, n)
  }

  /** An envelope comes out of fetching the metric by itself. */
  predicate Yields(r: Round, n: string) {
    match KindIn(r, n) {
      case Outside => Sends(r.facts(n).alone)
      case Query => Sends(r.facts(n).alone)
      case Cached => true
      case _ => false
    }
  }

  function RecordedAtOnce(r: Round, names: set<string>): map<string, int> {
    map n | n in names && AtOnce(r, n) :: r.now + r.facts(n).took
  }

  /** The fetch times an iteration ending at `end` records. */
  function Recorded(r: Round, end: int): map<string, int> {
    map n | n in r.active.Keys && Fetches(r, n) :: if Waits(r, n) then end else r.now + r.facts(n).took
  }

  function RecoveredIn(r: Round, names: set<string>): set<string> {
    set n | n in names && Recovers(r, n)
  }

  function SentAtOnce(r: Round, names: set<string>): set<string> {
    set n | n in names && AtOnce(r, n) && Yields(r, n)
  }

  function EntryOf(r: Round, n: string): Entry {
    Entry(n, r.facts(n).queued, r.facts(n).alone)
  }

  ghost predicate BatchOk(r: Round, names: set<string>, batch: seq<Entry>) {
    && Distinct(batch)
    && (forall i :: 0 <= i < |batch| ==> batch[i] == EntryOf(r, batch[i].name))
    && (forall n :: n in Names(batch) <==> n in names && Waits(r, n))
  }

  lemma {:induction false} BatchAppend(r: Round, names: set<string>, batch: seq<Entry>, n: string)
    requires BatchOk(r, names, batch) && n !in names
    ensures BatchOk(r, names + {n}, if Waits(r, n) then batch + [EntryOf(r, n)] else batch)
  {
    var more := batch + [EntryOf(r, n)];
    forall m ensures m in Names(more) <==> m == n || m in Names(batch) {
      if m in Names(batch) {
        var i :| 0 <= i < |batch| && batch[i].name == m;
        assert more[i].name == m;
      }
      assert more[|batch|].name == n;
    }
    if Waits(r, n) {
      forall i | 0 <= i < |batch| ensures batch[i].name != n {
        assert batch[i].name in Names(batch);
      }
    }
  }

  ghost predicate SentOk(r: Round, names: set<string>, out: seq<string>) {
    NoDup(out) && NameSet(out) == SentAtOnce(r, names)
  }

  lemma {:induction false} SentAppend(r: Round, names: set<string>, out: seq<string>, n: string)
    requires SentOk(r, names, out) && n !in names
    ensures SentOk(r, names + {n}, if AtOnce(r, n) && Yields(r, n) then out + [n] else out)
  {
    NameSetMore(out, n);
    if AtOnce(r, n) && Yields(r, n) {
      AppendName(out, n);
    }
  }

  predicate Streams(r: Round, n: string) {
    Due(r.active, r.last, r.now, n) && KindIn(r, n).Streaming?
  }

  ghost predicate StreamsIn(r: Round, names: set<string>) {
    exists n :: n in names && Streams(r, n)
  }

  lemma {:induction false} StreamsMore(r: Round, names: set<string>, n: string)
    ensures StreamsIn(r, names + {n}) <==> StreamsIn(r, names) || Streams(r, n)
  {
  }

  /** What an iteration has changed so far. */
  datatype Book = Book(
    last: map<string, int>,
    degraded: set<string>,
    sent: seq<string>,
    started: bool,
    batch: seq<Entry>,
    attempts: seq<Attempt>)

  /** The metric is degraded, so its query is run by itself. */
  predicate Tries(r: Round, n: string) {
    AtOnce(r, n) && KindIn(r, n).Query?
  }

  predicate Recovers(r: Round, n: string) {
    Tries(r, n) && r.facts(n).alone.Rows?
  }

  ghost predicate TriesOk(r: Round, names: set<string>, tries: seq<Attempt>) {
    NoDup(tries) && forall a :: a in tries <==> a.name in names && Tries(r, a.name) && a == AloneTry(EntryOf(r, a.name))
  }

  ghost predicate TriesSince(r: Round, names: set<string>, base: seq<Attempt>, attempts: seq<Attempt>) {
    base <= attempts && TriesOk(r, names, attempts[|base|..])
  }

  lemma {:induction false} TriesSinceStep(r: Round, names: set<string>, base: seq<Attempt>, attempts: seq<Attempt>, n: string)
    requires TriesSince(r, names, base, attempts) && n !in names
    ensures TriesSince(r, names + {n}, base, if Tries(r, n) then attempts + [AloneTry(EntryOf(r, n))] else attempts)
  {
    var tries, a := attempts[|base|..], AloneTry(EntryOf(r, n));
    assert (attempts + [a])[|base|..] == tries + [a];
    hide Tries;
    assert a !in tries;
    NoDupConcat(tries, [a]);
  }

  /** What the loop body does for one metric. */
  function Visited(r: Round, b: Book, n: string): Book {
    Book(
      if AtOnce(r, n) then b.last[n := r.now + r.facts(n).took] else b.last,
      if Recovers(r, n) then b.degraded - {n} else b.degraded,
      if AtOnce(r, n) && Yields(r, n) then b.sent + [n] else b.sent,
      b.started || Streams(r, n),
      if Waits(r, n) then b.batch + [EntryOf(r, n)] else b.batch,
      if Tries(r, n) then b.attempts + [AloneTry(EntryOf(r, n))] else b.attempts)
  }

  /** What an iteration adds to: the channel, the attempts so far, and whether the log parser runs. */
  datatype Channel = Channel(sent: seq<string>, attempts: seq<Attempt>, started: bool)

  /** An iteration that began with `base` and has handled `done`. */
  ghost predicate Progress(r: Round, base: Channel, done: set<string>, b: Book) {
    && b.last == r.last + RecordedAtOnce(r, done)
    && b.degraded == r.degraded - RecoveredIn(r, done)
    && SentSince(r, done, base.sent, b.sent)
    && b.started == (base.started || StreamsIn(r, done))
    && BatchOk(r, done, b.batch)
    && TriesSince(r, done, base.attempts, b.attempts)
  }

  ghost predicate SentSince(r: Round, names: set<string>, base: seq<string>, sent: seq<string>) {
    base <= sent && SentOk(r, names, sent[|base|..])
  }

  lemma {:induction false} SentSinceStep(r: Round, names: set<string>, base: seq<string>, sent: seq<string>, n: string)
    requires SentSince(r, names, base, sent) && n !in names
    ensures SentSince(r, names + {n}, base, if AtOnce(r, n) && Yields(r, n) then sent + [n] else sent)
  {
    hide SentOk, AtOnce, Yields;
    SentAppend(r, names, sent[|base|..], n);
    assert (sent + [n])[|base|..] == sent[|base|..] + [n];
  }

  /** Before its turn a metric is judged by what the iteration started from. */
  lemma {:induction false} JudgedFresh(r: Round, names: set<string>, n: string)
    requires n !in names
    ensures Due(r.active, r.last + RecordedAtOnce(r, names), r.now, n) <==> Due(r.active, r.last, r.now, n)
    ensures n in r.degraded - RecoveredIn(r, names) <==> n in r.degraded
  {
    hide AtOnce, KindIn;
  }

  lemma {:induction false} RecordStep(r: Round, names: set<string>, n: string)
    ensures AtOnce(r, n) ==> RecordedAtOnce(r, names + {n}) == RecordedAtOnce(r, names)[n := r.now + r.facts(n).took]
    ensures !AtOnce(r, n) ==> RecordedAtOnce(r, names + {n}) == RecordedAtOnce(r, names)
  {
    hide AtOnce;
  }

  lemma {:induction false} RecoverStep(r: Round, names: set<string>, n: string)
    ensures RecoveredIn(r, names + {n}) == if Recovers(r, n) then RecoveredIn(r, names) + {n} else RecoveredIn(r, names)
  {
    hide Recovers;
  }

  lemma {:induction false} MergeUpdate(m: map<string, int>, m': map<string, int>, n: string, v: int)
    ensures m + m'[n := v] == (m + m')[n := v]
  {
  }

  lemma {:induction false} ProgressInit(r: Round, base: Channel)
    ensures Progress(r, base, {}, Book(r.last, r.degraded, base.sent, base.started, [], base.attempts))
  {
    assert base.sent[|base.sent|..] == [] && base.attempts[|base.attempts|..] == [];
  }

  lemma {:induction false} ProgressJudges(r: Round, base: Channel, done: set<string>, b: Book, n: string)
    requires Progress(r, base, done, b) && n !in done
    ensures Due(r.active, b.last, r.now, n) <==> Due(r.active, r.last, r.now, n)
    ensures n in b.degraded <==> n in r.degraded
  {
    JudgedFresh(r, done, n);
  }

  lemma {:induction false} ProgressStep(r: Round, base: Channel, done: set<string>, b: Book, n: string)
    requires Progress(r, base, done, b) && n !in done
    ensures Progress(r, base, done + {n}, Visited(r, b, n))
  {
    hide RecordedAtOnce, RecoveredIn, SentSince, TriesSince, StreamsIn, BatchOk, AtOnce, Yields, Waits, Streams, Recovers, Tries;
    TriesSinceStep(r, done, base.attempts, b.attempts, n);
    RecordStep(r, done, n);
    MergeUpdate(r.last, RecordedAtOnce(r, done), n, r.now + r.facts(n).took);
    RecoverStep(r, done, n);
    SentSinceStep(r, done, base.sent, b.sent, n);
    StreamsMore(r, done, n);
    BatchAppend(r, done, b.batch, n);
  }

  /** The fetch times recorded at once and those recorded for the batch make up the whole iteration. */
  lemma {:induction false} RecordedSplit(r: Round, batch: seq<Entry>, end: int)
    requires BatchOk(r, r.active.Keys, batch)
    ensures RecordedAtOnce(r, r.active.Keys) + AllAt(Names(batch), end) == Recorded(r, end)
  {
    hide Due, Names, Records, KindIn;
    var whole := RecordedAtOnce(r, r.active.Keys) + AllAt(Names(batch), end);
    forall n ensures n in whole <==> n in r.active.Keys && Fetches(r, n) {
      assert Waits(r, n) ==> Fetches(r, n) by { WaitsFetches(r, n); }
    }
  }

  lemma {:induction false} WaitsFetches(r: Round, n: string)
    ensures Waits(r, n) ==> Fetches(r, n)
  {
  }

  /** A query the batch answers has rows there exactly when it has rows alone. */
  ghost predicate AgreeingFacts(r: Round) {
    forall n :: n in r.active && !r.facts(n).queued.QueryErr? ==> (Sends(r.facts(n).queued) <==> Sends(r.facts(n).alone))
  }

  /** The metrics an iteration sends, in any order. */
  ghost predicate SendsExactly(r: Round, out: seq<string>) {
    NoDup(out) && forall n :: n in out <==> n in r.active && Fetches(r, n) && Yields(r, n)
  }

  lemma {:induction false} SendsSplit(r: Round, out: seq<string>, batch: seq<Entry>)
    requires BatchOk(r, r.active.Keys, batch) && SentOk(r, r.active.Keys, out)
    ensures SendsExactly(r, out + Delivered(batch))
  {
    DeliveredNames(batch);
    var late := Delivered(batch);
    forall n ensures n in out <==> n in NameSet(out) {
    }
    forall n ensures n in late <==> n in r.active && Waits(r, n) && Yields(r, n) {
      if n in late {
        var i :| 0 <= i < |batch| && batch[i].name == n && Sends(batch[i].alone);
        assert n in Names(batch);
      }
      if n in r.active && Waits(r, n) && Yields(r, n) {
        assert n in Names(batch);
        var i :| 0 <= i < |batch| && batch[i].name == n;
        assert Sends(batch[i].alone);
      }
    }
    hide Delivered, BatchOk, Due, KindIn, Yields;
    assert NoDup(out + late) by {
      forall i, j | 0 <= i < |out| && 0 <= j < |late| ensures out[i] != late[j] {
        assert out[i] in NameSet(out) && late[j] in late;
      }
    }
    forall n ensures n in out + late <==> n in r.active && Fetches(r, n) && Yields(r, n) {
      WaitsFetches(r, n);
      assert n in out + late <==> n in out || n in late;
    }
  }

  /** The names sent are among the entries', each at most once. */
  ghost predicate OnceEach(out: seq<string>, es: seq<Entry>) {
    NoDup(out) && forall n :: n in out ==> n in Names(es)
  }

  lemma {:induction false} ServedOnce(es: seq<Entry>, aborted: bool)
    requires Distinct(es)
    ensures OnceEach(Served(es, aborted), es)
    ensures forall n :: n in Served(es, aborted) ==> n !in Names(Retries(es, aborted))
  {
    if es == [] {
      assert Served(es, aborted) == [];
    } else {
      var rest := aborted || Aborts(es[0].queued);
      var served, retries := Served(es[1..], rest), Retries(es[1..], rest);
      NamesTail(es);
      ServedOnce(es[1..], rest);
      RetriesAreEntries(es[1..], rest);
      NamesTail([es[0]] + retries);
      assert ([es[0]] + retries)[1..] == retries;
      assert Served(es, aborted) == Put(Sends(Answer(aborted, es[0].queued)), es[0].name, served);
      assert Retries(es, aborted) == Put(Answer(aborted, es[0].queued).QueryErr?, es[0], retries);
      hide Served, Retries, Names, Distinct;
      assert NoDup([es[0].name] + served);
    }
  }

  /** Whatever the server answers, no entry of a batch is sent twice. */
  lemma {:induction false} SentAtMostOnce(es: seq<Entry>)
    requires Distinct(es)
    ensures OnceEach(Served(es, false) + Delivered(Retries(es, false)), es)
  {
    ServedOnce(es, false);
    RetriesAreEntries(es, false);
    DeliveredOnce(Retries(es, false));
    hide Served, Retries, Delivered, Names, Distinct;
    var a, b := Served(es, false), Delivered(Retries(es, false));
    forall i, j | 0 <= i < |a| && 0 <= j < |b| ensures a[i] != b[j] {
      assert a[i] in a && b[j] in b;
    }
  }

  lemma {:induction false} DeliveredOnce(es: seq<Entry>)
    requires Distinct(es)
    ensures OnceEach(Delivered(es), es)
  {
    DeliveredNames(es);
    forall n | n in Delivered(es) ensures n in Names(es) {
      var i :| 0 <= i < |es| && es[i].name == n && Sends(es[i].alone);
    }
  }

  /** Batching sends what one-by-one fetching sends if and only if batch and retry agree on the answered entries. */
  lemma {:induction false} BatchSendsTheSameIff(es: seq<Entry>)
    requires Distinct(es)
    ensures Served(es, false) + Delivered(Retries(es, false)) == Delivered(es) <==> Agrees(es)
  {
    if Agrees(es) {
      BatchSendsTheSame(es);
    } else if es != [] {
      var e, rest := es[0], es[1..];
      AgreesTail(es);
      NamesTail(es);
      AllRetried(rest);
      SentAtMostOnce(rest);
      DeliveredOnce(rest);
      BatchSendsTheSameIff(rest);
      var out := if Aborts(e.queued) then Delivered(rest) else Served(rest, false) + Delivered(Retries(rest, false));
      assert Served(es, false) + Delivered(Retries(es, false)) == Put(Sends(e.queued), e.name, out);
      assert Delivered(es) == Put(Sends(e.alone), e.name, Delivered(rest));
      hide Served, Retries, Delivered, Agrees, Names, Distinct;
      assert e.name !in out && e.name !in Delivered(rest);
      HeadDiffers(Sends(e.queued), Sends(e.alone), e.name, out, Delivered(rest));
    }
  }

  lemma {:induction false} HeadDiffers(c: bool, d: bool, x: string, a: seq<string>, b: seq<string>)
    requires x !in a && x !in b
    ensures Put(c, x, a) == Put(d, x, b) <==> c == d && a == b
  {
    if c == d {
      assert ([x] + a)[1..] == a && ([x] + b)[1..] == b;
    } else {
      assert ([x] + a)[0] == x && ([x] + b)[0] == x;
    }
  }

  /** What a batch sends: the envelopes of its answers, then those of the retries. */
  function BatchSent(es: seq<Entry>): seq<string> {
    Served(es, false) + Delivered(Retries(es, false))
  }

  function BatchTries(es: seq<Entry>): seq<Attempt> {
    QueuedTries(es, false) + AloneTries(Retries(es, false))
  }

  lemma {:induction false} BatchMeans(es: seq<Entry>, sent: seq<string>, attempts: seq<Attempt>)
    requires Distinct(es)
    ensures sent + Served(es, false) + Delivered(Retries(es, false)) == sent + BatchSent(es)
    ensures attempts + QueuedTries(es, false) + AloneTries(Retries(es, false)) == attempts + BatchTries(es)
    ensures sent <= sent + BatchSent(es) && OnceEach((sent + BatchSent(es))[|sent|..], es)
    ensures sent + BatchSent(es) == sent + Delivered(es) <==> Agrees(es)
    ensures Steady(es) ==> |Dropped(es, false)| + |Failing(Retries(es, false))| == |Failing(es)|
  {
    SentAtMostOnce(es);
    BatchSendsTheSameIff(es);
    if Steady(es) {
      EveryFailureReported(es);
    }
    hide Served, Delivered, Retries, QueuedTries, AloneTries, OnceEach, Agrees, Steady, Distinct;
    Appended(sent, BatchSent(es));
    Assoc(sent, Served(es, false), Delivered(Retries(es, false)));
    Assoc(attempts, QueuedTries(es, false), AloneTries(Retries(es, false)));
  }

  /** What is sent at once and what comes out of the batch are different metrics. */
  lemma {:induction false} OnceInRound(r: Round, out: seq<string>, batch: seq<Entry>, late: seq<string>)
    requires BatchOk(r, r.active.Keys, batch) && SentOk(r, r.active.Keys, out) && OnceEach(late, batch)
    ensures NoDup(out + late)
  {
    hide Distinct, Names, Due, KindIn, Yields;
    forall i, j | 0 <= i < |out| && 0 <= j < |late| ensures out[i] != late[j] {
      assert out[i] in NameSet(out) && late[j] in late;
    }
  }

  /**
   * What one iteration meets: the active metrics with their intervals, and those active when it is over,
   * how late it starts, how long it takes, and the facts of its metrics.
   */
  datatype Env = Env(active: map<string, int>, after: map<string, int>, delay: nat, duration: nat, facts: string -> Facts)

  /** Immediate fetches end before the iteration does. */
  ghost predicate EnvOk(env: Env) {
    forall n :: n in env.active ==> env.facts(n).took <= env.duration
  }

  /** The active metrics and their intervals never change. */
  ghost predicate Fixed(envs: seq<Env>, active: map<string, int>) {
    forall i :: 0 <= i < |envs| ==> EnvOk(envs[i]) && envs[i].active == active && envs[i].after == active
  }

  /** The metrics that pass the definition and role checks and whose fetch is recorded. */
  function ReadyIn(active: map<string, int>, facts: string -> Facts): set<string> {
    set n | n in active && Records(KindOf(n, facts(n)))
  }

  ghost predicate ReadyAll(active: map<string, int>, envs: seq<Env>, its: seq<Iter>) {
    |its| <= |envs| && forall i :: 0 <= i < |its| ==> its[i].ready == ReadyIn(active, envs[i].facts)
  }

  function IterOf(r: Round, duration: nat): Iter {
    Iter(r.now, r.now + duration, ReadyIn(r.active, r.facts), Recorded(r, r.now + duration))
  }

  lemma {:induction false} IterKeepsLegal(its: seq<Iter>, r: Round, env: Env, g: int)
    requires Legal(its, r.active, g) && r.last == LastFetch(its) && r.facts == env.facts && r.active == env.active && EnvOk(env)
    requires its != [] ==> r.now >= its[|its| - 1].end + g * SECOND
    ensures Legal(its + [IterOf(r, env.duration)], r.active, g)
    ensures LastFetch(its + [IterOf(r, env.duration)]) == r.last + Recorded(r, r.now + env.duration)
  {
    var it := IterOf(r, env.duration);
    assert (its + [it])[..|its|] == its;
    IterInside(r, env);
    hide IterOf, Recorded, FetchesDue, TimesInside, EnvOk;
    assert it.now == r.now && it.rec == Recorded(r, r.now + env.duration) by {
      IterIs(r, env.duration);
    }
  }

  lemma {:induction false} IterInside(r: Round, env: Env)
    requires r.facts == env.facts && r.active == env.active && EnvOk(env)
    ensures TimesInside(IterOf(r, env.duration)) && FetchesDue(r.active, r.last, IterOf(r, env.duration))
  {
    hide Due, Waits, Records;
  }

  /**
   * On any run of the loop, a fetched metric that is still defined, allowed for the role and
   * recordable is fetched again within as many iterations as its interval holds ticks.
   */
  lemma {:induction false} RefetchedWithin(active: map<string, int>, envs: seq<Env>, its: seq<Iter>, g: int, i: nat, n: string)
    requires TickInterval.IsTick(active, g) && Legal(its, active, g) && ReadyAll(active, envs, its)
    requires n in active && active[n] > 0
    requires i + active[n] / g < |its| && n in its[i].rec
    requires var f := envs[i + active[n] / g].facts(n); f.defined && !f.roleExcluded && n != "server_log_event_counts"
    ensures active[n] % g == 0 && FetchedIn(its, i, i + active[n] / g, n)
  {
    hide Legal, LastFetch;
    TickInterval.IntervalsAreTicks(active, g, n);
    FetchedWithin(its, active, g, i, i + active[n] / g, n);
  }

  lemma {:induction false} IterIs(r: Round, duration: nat)
    ensures IterOf(r, duration).now == r.now && IterOf(r, duration).end == r.now + duration
    ensures IterOf(r, duration).rec == Recorded(r, r.now + duration) && IterOf(r, duration).ready == ReadyIn(r.active, r.facts)
  {
  }

  /** The envelopes of the passes. */
  function SentOver(postgres: bool, passes: seq<Pass>): seq<string> {
    if passes == [] then [] else SentOver(postgres, passes[..|passes| - 1]) + PassSent(postgres, passes[|passes| - 1])
  }

  function TriesOver(postgres: bool, passes: seq<Pass>): seq<Attempt> {
    if passes == [] then [] else TriesOver(postgres, passes[..|passes| - 1]) + PassTries(postgres, passes[|passes| - 1])
  }

  /** The degraded metrics after the passes, `degraded` before them. */
  function DegradedAfter(postgres: bool, degraded: set<string>, passes: seq<Pass>): set<string> {
    if passes == [] then degraded else PassDegraded(postgres, passes[|passes| - 1])
  }

  /** Where a run begins: the kind of source, the time, and the metrics degraded by then. */
  datatype Setup = Setup(postgres: bool, start: int, degraded: set<string>)

  /** When pass `i` starts: late by its delay, counted from the tick after the end of the pass before. */
  function StartOf(s: Setup, envs: seq<Env>, its: seq<Iter>, ticks: seq<int>, i: nat): int
    requires i < |envs| && i <= |its| == |ticks|
  {
    (if i == 0 then s.start else its[i - 1].end + ticks[i - 1] * SECOND) + envs[i].delay
  }

  lemma {:induction false} StartIs(s: Setup, envs: seq<Env>, its: seq<Iter>, ticks: seq<int>)
    requires |its| < |envs| && |its| == |ticks|
    ensures StartOf(s, envs, its, ticks, |its|) ==
      (if its == [] then s.start else its[|its| - 1].end + ticks[|its| - 1] * SECOND) + envs[|its|].delay
  {
  }

  /**
   * Pass `i` works on the metrics active then, from the fetch times and the degraded metrics the passes
   * before it left, and leaves iteration `i` of the timeline; the tick after it is that of the metrics
   * active by then.
   */
  ghost predicate RunStep(s: Setup, envs: seq<Env>, its: seq<Iter>, ticks: seq<int>, passes: seq<Pass>, i: nat)
    requires i < |passes| == |its| == |ticks| <= |envs|
  {
    && PassOk(passes[i]) && passes[i].duration == envs[i].duration
    && passes[i].round == Round(
         envs[i].active, LastFetch(its[..i]), DegradedAfter(s.postgres, s.degraded, passes[..i]),
         StartOf(s, envs, its, ticks, i), envs[i].facts)
    && its[i] == IterOf(passes[i].round, envs[i].duration)
    && TickInterval.IsTick(envs[i].after, ticks[i])
  }

  ghost predicate RunOk(s: Setup, envs: seq<Env>, its: seq<Iter>, ticks: seq<int>, passes: seq<Pass>) {
    |passes| == |its| == |ticks| <= |envs| && forall i :: 0 <= i < |its| ==> RunStep(s, envs, its, ticks, passes, i)
  }

  lemma {:induction false} RunMore(s: Setup, envs: seq<Env>, its: seq<Iter>, ticks: seq<int>, passes: seq<Pass>, p: Pass, tick: int)
    requires RunOk(s, envs, its, ticks, passes) && |its| < |envs| && PassOk(p) && p.duration == envs[|its|].duration
    requires p.round == Round(
      envs[|its|].active, LastFetch(its), DegradedAfter(s.postgres, s.degraded, passes),
      StartOf(s, envs, its, ticks, |its|), envs[|its|].facts)
    requires TickInterval.IsTick(envs[|its|].after, tick)
    ensures RunOk(s, envs, its + [IterOf(p.round, p.duration)], ticks + [tick], passes + [p])
    ensures LastFetch(its + [IterOf(p.round, p.duration)]) == LastFetch(its) + Recorded(p.round, p.round.now + p.duration)
    ensures SentOver(s.postgres, passes + [p]) == SentOver(s.postgres, passes) + PassSent(s.postgres, p)
    ensures TriesOver(s.postgres, passes + [p]) == TriesOver(s.postgres, passes) + PassTries(s.postgres, p)
    ensures DegradedAfter(s.postgres, s.degraded, passes + [p]) == PassDegraded(s.postgres, p)
  {
    IterIs(p.round, p.duration);
    hide PassOk, PassSent, PassTries, PassDegraded, IterOf, Recorded, TickInterval.IsTick;
    var its', ticks', passes' := its + [IterOf(p.round, p.duration)], ticks + [tick], passes + [p];
    assert passes'[..|passes|] == passes && its'[..|its|] == its;
    hide SentOver, TriesOver, LastFetch;
    forall i | 0 <= i < |its'| ensures RunStep(s, envs, its', ticks', passes', i) {
      if i < |its| {
        assert RunStep(s, envs, its, ticks, passes, i);
        assert its'[..i] == its[..i] && passes'[..i] == passes[..i];
      }
    }
  }

  lemma {:induction false} RunInit(s: Setup, envs: seq<Env>)
    ensures RunOk(s, envs, [], [], []) && SentOver(s.postgres, []) == [] && TriesOver(s.postgres, []) == []
    ensures DegradedAfter(s.postgres, s.degraded, []) == s.degraded && LastFetch([]) == map[]
  {
  }

  lemma {:induction false} RunStepIs(s: Setup, envs: seq<Env>, its: seq<Iter>, ticks: seq<int>, passes: seq<Pass>, i: nat)
    requires RunOk(s, envs, its, ticks, passes) && i < |its|
    ensures var r := passes[i].round;
      && its[i] == IterOf(r, envs[i].duration) && r.active == envs[i].active && r.facts == envs[i].facts && r.last == LastFetch(its[..i])
      && (i > 0 ==> r.now >= its[i - 1].end + ticks[i - 1] * SECOND) && TickInterval.IsTick(envs[i].after, ticks[i])
  {
    hide PassOk, IterOf, LastFetch, DegradedAfter, TickInterval.IsTick;
    assert RunStep(s, envs, its, ticks, passes, i);
  }

  /**
   * On any run, an iteration records a metric exactly when it is defined, allowed for the role and not the log
   * parser's, and its interval, as it is then, has passed since its fetch was last recorded.
   */
  lemma {:induction false} FetchedWhenDue(s: Setup, envs: seq<Env>, its: seq<Iter>, ticks: seq<int>, passes: seq<Pass>, i: nat, n: string)
    requires RunOk(s, envs, its, ticks, passes) && i < |its|
    ensures var (active, last, f) := (envs[i].active, LastFetch(its[..i]), envs[i].facts(n));
      n in its[i].rec <==>
        && n in active && active[n] > 0 && (n in last ==> its[i].now - last[n] >= active[n] * 1_000_000_000)
        && f.defined && !f.roleExcluded && n != "server_log_event_counts"
  {
    RunStepIs(s, envs, its, ticks, passes, i);
    IterIs(passes[i].round, envs[i].duration);
    hide RunOk, IterOf, LastFetch;
  }

  lemma {:induction false} FixedAt(envs: seq<Env>, active: map<string, int>, i: nat)
    requires Fixed(envs, active) && i < |envs|
    ensures EnvOk(envs[i]) && envs[i].active == active && envs[i].after == active
  {
    hide EnvOk;
  }

  lemma {:induction false} RunIsReady(s: Setup, envs: seq<Env>, its: seq<Iter>, ticks: seq<int>, passes: seq<Pass>, active: map<string, int>)
    requires RunOk(s, envs, its, ticks, passes) && Fixed(envs, active)
    ensures ReadyAll(active, envs, its)
  {
    hide RunStep, ReadyIn, IterOf, Fixed;
    forall i | 0 <= i < |its| ensures its[i].ready == ReadyIn(active, envs[i].facts) {
      RunStepIs(s, envs, its, ticks, passes, i);
      IterIs(passes[i].round, envs[i].duration);
      FixedAt(envs, active, i);
    }
  }

  /** A run whose active metrics never change leaves a legal timeline, with one tick throughout. */
  lemma {:induction false} FixedRunIsLegal(s: Setup, envs: seq<Env>, its: seq<Iter>, ticks: seq<int>, passes: seq<Pass>, active: map<string, int>, g: int, n: nat)
    requires RunOk(s, envs, its, ticks, passes) && Fixed(envs, active) && TickInterval.IsTick(active, g) && n <= |its|
    ensures Legal(its[..n], active, g)
  {
    if n > 0 {
      hide RunStep, IterOf, TickInterval.IsTick, EnvOk, LastFetch, Fixed, Legal;
      var r := passes[n - 1].round;
      FixedRunIsLegal(s, envs, its, ticks, passes, active, g, n - 1);
      RunStepIs(s, envs, its, ticks, passes, n - 1);
      FixedAt(envs, active, n - 1);
      if n > 1 {
        RunStepIs(s, envs, its, ticks, passes, n - 2);
        FixedAt(envs, active, n - 2);
        TickInterval.TickUnique(active, g, ticks[n - 2]);
      }
      IterKeepsLegal(its[..n - 1], r, envs[n - 1], g);
      assert its[..n] == its[..n - 1] + [its[n - 1]];
    }
  }

  /** How many of the passes fetch the metric and get rows. */
  function YieldsOver(passes: seq<Pass>, n: string): nat {
    if passes == [] then 0
    else
      var r := passes[|passes| - 1].round;
      YieldsOver(passes[..|passes| - 1], n) + if n in r.active && Fetches(r, n) && Yields(r, n) then 1 else 0
  }

  /** Over a run every fetch of a metric that gets rows is one envelope, and there are no others. */
  lemma {:induction false} OneEnvelopeEach(postgres: bool, passes: seq<Pass>, n: string)
    requires forall i :: 0 <= i < |passes| ==> PassOk(passes[i]) && (AgreeingFacts(passes[i].round) || !postgres)
    ensures multiset(SentOver(postgres, passes))[n] == YieldsOver(passes, n)
  {
    if passes != [] {
      var before, p := passes[..|passes| - 1], passes[|passes| - 1];
      OneEnvelopeEach(postgres, before, n);
      PassSends(postgres, p);
      hide PassOk, PassSent, AgreeingFacts, Fetches, Yields;
      OnceIn(PassSent(postgres, p), n);
    }
  }

  /** What a round starts from, and what happens in it: what is sent and tried before the batch, and the batch. */
  datatype Pass = Pass(round: Round, duration: nat, early: seq<string>, tries: seq<Attempt>, batch: seq<Entry>)

  ghost predicate PassOk(p: Pass) {
    && SentOk(p.round, p.round.active.Keys, p.early)
    && TriesOk(p.round, p.round.active.Keys, p.tries)
    && BatchOk(p.round, p.round.active.Keys, p.batch)
  }

  /** All envelopes of the pass. Sources that are not Postgres fetch the waiting metrics one by one. */
  function PassSent(postgres: bool, p: Pass): seq<string> {
    p.early + if postgres then BatchSent(p.batch) else Delivered(p.batch)
  }

  function PassTries(postgres: bool, p: Pass): seq<Attempt> {
    p.tries + if postgres then BatchTries(p.batch) else AloneTries(p.batch)
  }

  /** The metrics degraded after the pass. */
  function PassDegraded(postgres: bool, p: Pass): set<string> {
    p.round.degraded - RecoveredIn(p.round, p.round.active.Keys) +
    if postgres then NameSet(Failing(Retries(p.batch, false))) else {}
  }

  /** What was added before the batch and by the batch is what the pass adds. */
  lemma {:induction false} PassIs(postgres: bool, p: Pass, sent: seq<string>, attempts: seq<Attempt>)
    ensures sent + p.early + (if postgres then BatchSent(p.batch) else Delivered(p.batch)) == sent + PassSent(postgres, p)
    ensures attempts + p.tries + (if postgres then BatchTries(p.batch) else AloneTries(p.batch)) == attempts + PassTries(postgres, p)
    ensures PassDegraded(postgres, p) == p.round.degraded - RecoveredIn(p.round, p.round.active.Keys) +
      if postgres then NameSet(Failing(Retries(p.batch, false))) else {}
  {
    hide BatchSent, Delivered, BatchTries, AloneTries, NameSet, Failing, Retries, RecoveredIn;
    Assoc(sent, p.early, if postgres then BatchSent(p.batch) else Delivered(p.batch));
    Assoc(attempts, p.tries, if postgres then BatchTries(p.batch) else AloneTries(p.batch));
  }

  /** No metric is sent twice in a pass, and if batch and retry agree it sends every metric it fetches that has rows. */
  lemma {:induction false} PassSends(postgres: bool, p: Pass)
    requires PassOk(p)
    ensures NoDup(PassSent(postgres, p))
    ensures AgreeingFacts(p.round) || !postgres ==> SendsExactly(p.round, PassSent(postgres, p))
  {
    hide SentOk, TriesOk, BatchOk, BatchSent, Delivered, OnceEach, SendsExactly, AgreeingFacts;
    BatchFacts(p.round, p.batch);
    SendsSplit(p.round, p.early, p.batch);
    if postgres {
      BatchMeans(p.batch, [], []);
      Appended([], BatchSent(p.batch));
      OnceInRound(p.round, p.early, p.batch, BatchSent(p.batch));
    } else {
      DeliveredOnce(p.batch);
      OnceInRound(p.round, p.early, p.batch, Delivered(p.batch));
    }
  }

  /** The pass an iteration has prepared once all metrics were visited. */
  lemma {:induction false} ProgressMeans(r: Round, base: Channel, b: Book, end: int)
    requires Progress(r, base, r.active.Keys, b)
    ensures base.sent <= b.sent && SentOk(r, r.active.Keys, b.sent[|base.sent|..])
    ensures base.attempts <= b.attempts && TriesOk(r, r.active.Keys, b.attempts[|base.attempts|..])
    ensures BatchOk(r, r.active.Keys, b.batch) && Distinct(b.batch) && Names(b.batch) !! b.degraded
    ensures b.last + AllAt(Names(b.batch), end) == r.last + Recorded(r, end)
    ensures b.degraded == r.degraded - RecoveredIn(r, r.active.Keys)
    ensures b.started == (base.started || StreamsIn(r, r.active.Keys))
  {
    ProgressIs(r, base, b);
    hide *;
    BatchFacts(r, b.batch);
    RecordedSplit(r, b.batch, end);
    MergeAssoc(r.last, RecordedAtOnce(r, r.active.Keys), AllAt(Names(b.batch), end));
    DegradedApart(r, b.batch);
  }

  ghost function PassFrom(r: Round, duration: nat, base: Channel, b: Book): (p: Pass)
    requires base.sent <= b.sent && SentOk(r, r.active.Keys, b.sent[|base.sent|..])
    requires base.attempts <= b.attempts && TriesOk(r, r.active.Keys, b.attempts[|base.attempts|..])
    requires BatchOk(r, r.active.Keys, b.batch)
    ensures p.round == r && p.duration == duration && PassOk(p) && p.batch == b.batch
    ensures b.sent == base.sent + p.early && b.attempts == base.attempts + p.tries
  {
    Pass(r, duration, b.sent[|base.sent|..], b.attempts[|base.attempts|..], b.batch)
  }

  lemma {:induction false} ProgressIs(r: Round, base: Channel, b: Book)
    requires Progress(r, base, r.active.Keys, b)
    ensures base.sent <= b.sent && SentOk(r, r.active.Keys, b.sent[|base.sent|..])
    ensures base.attempts <= b.attempts && TriesOk(r, r.active.Keys, b.attempts[|base.attempts|..])
    ensures BatchOk(r, r.active.Keys, b.batch) && b.last == r.last + RecordedAtOnce(r, r.active.Keys)
    ensures b.degraded == r.degraded - RecoveredIn(r, r.active.Keys)
    ensures b.started == (base.started || StreamsIn(r, r.active.Keys))
  {
    hide SentOk, TriesOk, BatchOk, RecordedAtOnce, RecoveredIn, StreamsIn;
  }

  lemma {:induction false} DegradedApart(r: Round, batch: seq<Entry>)
    requires Names(batch) !! r.degraded
    ensures Names(batch) !! r.degraded - RecoveredIn(r, r.active.Keys)
  {
  }

  lemma {:induction false} MergeAssoc(a: map<string, int>, b: map<string, int>, c: map<string, int>)
    ensures (a + b) + c == a + (b + c)
  {
  }

  lemma {:induction false} NamesAppend(es: seq<Entry>, i: nat)
    requires i < |es|
    ensures Names(es[..i + 1]) == Names(es[..i]) + {es[i].name}
  {
    forall n ensures n in Names(es[..i + 1]) <==> n in Names(es[..i]) || n == es[i].name {
      if n in Names(es[..i]) {
        var k :| 0 <= k < i && es[..i][k].name == n;
        assert es[..i + 1][k].name == n;
      }
      assert es[..i + 1][i].name == es[i].name;
    }
  }

  lemma {:induction false} BatchFacts(r: Round, batch: seq<Entry>)
    requires BatchOk(r, r.active.Keys, batch)
    ensures Distinct(batch) && Names(batch) !! r.degraded
    ensures AgreeingFacts(r) ==> Agrees(batch)
    ensures batch == [] ==> Names(batch) == {} && Delivered(batch) == [] && Failing(Retries(batch, false)) == []
  {
    forall i | 0 <= i < |batch| ensures batch[i].name in r.active.Keys {
      assert batch[i].name in Names(batch);
    }
  }

  lemma {:induction false} PutSplit<T>(xs: seq<T>, c: bool, x: T, ys: seq<T>)
    ensures xs + Put(c, x, ys) == (if c then xs + [x] else xs) + ys
    ensures |Put(c, x, ys)| == |ys| + if c then 1 else 0
  {
    assert xs + ([x] + ys) == xs + [x] + ys;
  }

  lemma {:induction false} Unroll(es: seq<Entry>, i: nat, aborted: bool)
    requires i < |es|
    ensures var rest := aborted || Aborts(es[i].queued);
      && Retries(es[i..], aborted) == Put(Answer(aborted, es[i].queued).QueryErr?, es[i], Retries(es[i + 1..], rest))
      && Served(es[i..], aborted) == Put(Sends(Answer(aborted, es[i].queued)), es[i].name, Served(es[i + 1..], rest))
      && Dropped(es[i..], aborted) == Put(Answer(aborted, es[i].queued).RowsErr?, es[i], Dropped(es[i + 1..], rest))
      && QueuedTries(es[i..], aborted) == [QueuedTry(es[i], aborted)] + QueuedTries(es[i + 1..], rest)
  {
    assert es[i..][1..] == es[i + 1..];
  }

  lemma {:induction false} UnrollRetry(es: seq<Entry>, i: nat)
    requires i < |es|
    ensures Delivered(es[i..]) == Put(Sends(es[i].alone), es[i].name, Delivered(es[i + 1..]))
    ensures AloneTries(es[i..]) == [AloneTry(es[i])] + AloneTries(es[i + 1..])
    ensures Failing(es[i..]) == Put(!es[i].alone.Rows?, es[i].name, Failing(es[i + 1..]))
    ensures NameSet(Failing(es[i..])) == (if es[i].alone.Rows? then {} else {es[i].name}) + NameSet(Failing(es[i + 1..]))
  {
    assert es[i..][1..] == es[i + 1..];
    var rest := Failing(es[i + 1..]);
    assert NameSet([es[i].name] + rest) == {es[i].name} + NameSet(rest) by {
      forall n | n in NameSet(rest) ensures n in NameSet([es[i].name] + rest) {
        var k :| 0 <= k < |rest| && rest[k] == n;
        assert ([es[i].name] + rest)[k + 1] == n;
      }
      assert ([es[i].name] + rest)[0] == es[i].name;
    }
  }
}
