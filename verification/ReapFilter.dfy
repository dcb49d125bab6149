/** What the source filter does, over runs: a rejected source is closed and stays down. */
module ReapFilter {
  import opened SourceConfig
  import opened ReapWorld
  import opened ReapTheorems

  lemma {:induction false} ClosedAfterReload(w: World, load: Load, c: Conn)
    requires Valid(w) && PoolOf(w, c) == Closed
    ensures PoolOf(LoadSources(w, load), c) == Closed
  {
    if load.Resolved? {
      ShutdownChangedResult(w, load.conns);
      hide Loaded, Changed, ShutdownChanged;
    }
  }

  lemma {:induction false} ClosedAfterCleanup(w: World, r: Round, c: Conn)
    requires Possible(w, r) && Loaded(AfterSweep(w, r))
    requires c in AfterSweep(w, r).monitored && PoolOf(AfterSweep(w, r), c) == Closed
    ensures c in Iterate(w, r).monitored && PoolOf(Iterate(w, r), c) == Closed
  {
    CleanupKeeps(AfterSweep(w, r), r.ctxDone, r.names);
  }

  lemma {:induction false} ClosedHasNoWorker(w: World, c: Conn)
    requires Valid(w) && c in w.monitored && PoolOf(w, c) == Closed
    ensures c.Name() !in w.cancelFuncs
  {
    if c.Name() in w.cancelFuncs {
      WorkerConn(w, c);
    }
  }

  /** The pool is open or about to be opened. */
  predicate Reachable(w: World, c: Conn, o: Outcome) {
    PoolOf(w, c) == Open || (PoolOf(w, c) == NoPool && o.opens)
  }

  /** A source the filter rejects loses its pool. */
  lemma {:induction false} RejectCloses(w: World, c: Conn, o: Outcome)
    requires Loaded(w) && c in w.monitored && Rejects(c, o) && Reachable(w, c, o)
    ensures PoolOf(SweepOne(w, c, o), c) == Closed
  {
    ConnectKeeps(w, c, o);
    ShutdownEffect(Connect(w, c, o).(swept := w.swept + {c}), c.Name());
    hide Loaded, Shutdown;
  }

  /** Monitored objects, each once. */
  ghost predicate Sweepable(w: World, order: seq<Conn>) {
    (forall d :: d in order ==> d in w.monitored) && forall i, j :: 0 <= i < j < |order| ==> order[i] != order[j]
  }

  /** The last source of a sweep starts from what the others left, its own pool as it was. */
  lemma {:induction false} SweepLast(w: World, order: seq<Conn>, outcomes: string -> Outcome)
    requires Loaded(w) && Sweepable(w, order) && order != []
    ensures var (most, d) := (order[..|order| - 1], order[|order| - 1]);
            var w1 := Sweep(w, most, outcomes);
            && Sweepable(w, most) && d !in most && d in w1.monitored && Loaded(w1)
            && Sweep(w, order, outcomes) == SweepOne(w1, d, outcomes(d.Name()))
            && (forall c :: c in order <==> c in most || c == d)
            && (forall c :: c != d ==> PoolOf(SweepOne(w1, d, outcomes(d.Name())), c) == PoolOf(w1, c))
  {
    var most, d := order[..|order| - 1], order[|order| - 1];
    assert order == most + [d];
    var w1 := Sweep(w, most, outcomes);
    assert Sweep(w, order, outcomes) == SweepOne(w1, d, outcomes(d.Name()));
    hide Loaded, Sweep, SweepOne, PoolOf;
    SweepKeeps(w, most, outcomes);
    SweepLoaded(w, w1, most, outcomes);
    SweepOneKeeps(w1, d, outcomes(d.Name()));
  }

  lemma {:induction false} SweepOthers(w: World, order: seq<Conn>, outcomes: string -> Outcome, c: Conn)
    requires Loaded(w) && Sweepable(w, order) && c !in order
    ensures PoolOf(Sweep(w, order, outcomes), c) == PoolOf(w, c)
  {
    if order != [] {
      hide *;
      SweepLast(w, order, outcomes);
      SweepOthers(w, order[..|order| - 1], outcomes, c);
    }
  }

  lemma {:induction false} SweepRejects(w: World, order: seq<Conn>, outcomes: string -> Outcome, c: Conn)
    requires Loaded(w) && Sweepable(w, order) && c in order
    requires Rejects(c, outcomes(c.Name())) && Reachable(w, c, outcomes(c.Name()))
    ensures PoolOf(Sweep(w, order, outcomes), c) == Closed
  {
    var most, d := order[..|order| - 1], order[|order| - 1];
    hide Loaded, Sweep, SweepOne, PoolOf, Rejects, Sweepable;
    SweepLast(w, order, outcomes);
    if d == c {
      SweepOthers(w, most, outcomes, c);
      RejectCloses(Sweep(w, most, outcomes), c, outcomes(c.Name()));
    } else {
      SweepRejects(w, most, outcomes, c);
    }
  }

  /** The round's sweep reaches the source and the filter rejects it. */
  predicate RejectedIn(w: World, r: Round, c: Conn) {
    && c in AfterLoad(w, r).monitored && Rejects(c, r.outcomes(c.Name()))
    && Reachable(AfterLoad(w, r), c, r.outcomes(c.Name()))
  }

  /** A rejected source ends the iteration monitored, closed and without a worker. */
  lemma {:induction false} RejectedIsDown(w: World, r: Round, c: Conn)
    requires Valid(w) && Possible(w, r) && RejectedIn(w, r, c)
    ensures var w' := Iterate(w, r);
            c in w'.monitored && PoolOf(w', c) == Closed && c.Name() !in w'.cancelFuncs
  {
    IterateKeeps(w, r);
    OrderIsMonitored(w, r, c);
    hide Valid, Loaded, Sweep, Rejects, Iterate, Reachable, PoolOf, AfterLoad, Sweepable;
    SweepRejects(AfterLoad(w, r), r.order, r.outcomes, c);
    SweepLoaded(AfterLoad(w, r), AfterSweep(w, r), r.order, r.outcomes);
    ClosedAfterCleanup(w, r, c);
    ClosedHasNoWorker(Iterate(w, r), c);
  }

  lemma {:induction false} OrderIsMonitored(w: World, r: Round, c: Conn)
    requires Possible(w, r)
    ensures c in r.order <==> c in AfterLoad(w, r).monitored
    ensures Sweepable(AfterLoad(w, r), r.order)
  {
    hide AfterLoad, MustStop, AfterSweep;
  }

  /** A monitored object is still monitored after an iteration exactly when its source stays configured the same. */
  lemma {:induction false} MonitoredIff(w: World, r: Round, c: Conn)
    requires Valid(w) && Possible(w, r) && c in w.monitored
    ensures c in Iterate(w, r).monitored <==> StaysConfigured(r.load, c)
  {
    assert r.load.Resolved? ==> DistinctNames(r.load.conns);
    SameMonitored(w, r);
    hide Iterate, Possible, StaysConfigured, LoadSources, Valid, DistinctNames;
    StaysMonitored(w, r.load, c);
  }

  lemma {:induction false} SameMonitored(w: World, r: Round)
    requires Valid(w) && Possible(w, r)
    ensures Iterate(w, r).monitored == LoadSources(w, r.load).monitored
    ensures Loaded(AfterLoad(w, r)) && Loaded(AfterSweep(w, r))
  {
    assert r.load.Resolved? ==> DistinctNames(r.load.conns);
    assert forall n :: n in r.names <==> MustStop(AfterSweep(w, r), r.ctxDone, n);
    IterateKeeps(w, r);
    hide Valid, Loaded, Sweep, Possible, LoadSources, Cleanup, SweepResult, MustStop;
    LoadSourcesKeeps(w, r.load);
    LoadMetricsKeeps(LoadSources(w, r.load), r.presets);
    SweepLoaded(AfterLoad(w, r), AfterSweep(w, r), r.order, r.outcomes);
    CleanupKeeps(AfterSweep(w, r), r.ctxDone, r.names);
  }

  lemma {:induction false} SweepOneSwept(w: World, c: Conn, o: Outcome)
    ensures SweepOne(w, c, o).swept == w.swept + {c}
  {
    hide Find, PoolOf;
  }

  lemma {:induction false} SweepSwept(w: World, order: seq<Conn>, outcomes: string -> Outcome)
    ensures Sweep(w, order, outcomes).swept == w.swept + set c | c in order
  {
    if order != [] {
      var most, c := order[..|order| - 1], order[|order| - 1];
      assert order == most + [c];
      assert Sweep(w, order, outcomes) == SweepOne(Sweep(w, most, outcomes), c, outcomes(c.Name()));
      hide *;
      SweepSwept(w, most, outcomes);
      SweepOneSwept(Sweep(w, most, outcomes), c, outcomes(c.Name()));
    }
  }

  /** Objects once swept are remembered as such, and all monitored ones are swept. */
  lemma {:induction false} SweptGrows(w: World, r: Round)
    requires Valid(w) && Possible(w, r)
    ensures Iterate(w, r).swept == w.swept + set c | c in r.order
    ensures forall c :: c in AfterLoad(w, r).monitored ==> c in Iterate(w, r).swept
  {
    SameMonitored(w, r);
    LoadSwept(w, r);
    var w1, w2 := AfterLoad(w, r), AfterSweep(w, r);
    SweepSwept(w1, r.order, r.outcomes);
    ShutdownAllResult(w2, r.names);
    CloseGoneResult(ShutdownAll(w2, r.names), w2.previous);
    assert Iterate(w, r).swept == w2.swept;
    hide Loaded, Valid, Iterate, AfterLoad, AfterSweep, Sweep;
    forall c | c in w1.monitored ensures c in w2.swept {
      OrderIsMonitored(w, r, c);
    }
  }

  lemma {:induction false} LoadSwept(w: World, r: Round)
    requires Valid(w)
    ensures AfterLoad(w, r).swept == w.swept
  {
    if r.load.Resolved? {
      ShutdownChangedResult(w, r.load.conns);
    }
  }

  /** Resolving makes new connection objects; only a failed discovery hands out earlier ones again. */
  ghost predicate NewObjects(rounds: seq<Round>) {
    forall k :: 0 <= k < |rounds| ==> NewIn(After(rounds[..k]), rounds[k])
  }

  ghost predicate NewIn(w: World, r: Round) {
    r.load.Resolved? ==> forall q :: q in r.load.conns ==> q !in w.swept
  }

  /** An object that is no longer monitored never is again. */
  lemma {:induction false} GoneForGood(w: World, r: Round, c: Conn)
    requires Valid(w) && Possible(w, r) && NewIn(w, r) && c in w.swept && c !in w.monitored
    ensures c !in Iterate(w, r).monitored && c in Iterate(w, r).swept
  {
    hide Iterate, Valid, Possible, AfterLoad, AfterSweep, Merged, MergedList, ShutdownChanged;
    SweptGrows(w, r);
    SameMonitored(w, r);
    if r.load.Resolved? {
      var list := MergedList(w, r.load.conns);
      forall j | 0 <= j < |list| ensures list[j] != c {
        assert r.load.conns[j] in r.load.conns;
        KeptOrNew(w, r.load.conns[j]);
      }
    }
  }

  lemma {:induction false} KeptOrNew(w: World, r: Conn)
    ensures Merged(w, r) == r || Merged(w, r) in w.monitored
  {
    hide Equal, SourceOf;
  }

  ghost predicate ConfiguredThrough(rounds: seq<Round>, i: int, j: int, c: Conn) {
    forall k :: 0 <= i < k < j <= |rounds| ==> StaysConfigured(rounds[k].load, c)
  }

  /** Monitored, closed and without a worker. */
  ghost predicate Down(w: World, c: Conn) {
    c in w.monitored && PoolOf(w, c) == Closed && c.Name() !in w.cancelFuncs
  }

  /** Monitored after every round from `i` on, up to the state before round `j`. */
  ghost predicate MonitoredThrough(rounds: seq<Round>, i: int, j: int, c: Conn) {
    forall k :: 0 <= i < k <= j <= |rounds| ==> c in After(rounds[..k]).monitored
  }

  /**
   * After a round that rejects a source its pool stays closed for good, so whenever its connection
   * object is monitored it is down. It stays monitored exactly as long as every round keeps the source
   * configured the same; where resolving makes new objects, that is the only way to be monitored later.
   */
  lemma {:induction false} FilteredStaysDownIff(rounds: seq<Round>, i: nat, j: nat, c: Conn)
    requires PossibleRun(rounds) && i < j <= |rounds|
    requires RejectedIn(After(rounds[..i]), rounds[i], c)
    ensures PoolOf(After(rounds[..j]), c) == Closed && c in After(rounds[..j]).swept
    ensures c in After(rounds[..j]).monitored ==> Down(After(rounds[..j]), c)
    ensures MonitoredThrough(rounds, i, j, c) <==> ConfiguredThrough(rounds, i, j, c)
    ensures NewObjects(rounds) ==> (c in After(rounds[..j]).monitored <==> ConfiguredThrough(rounds, i, j, c))
    decreases j
  {
    hide *;
    var k := j - 1;
    NewAt(rounds, k);
    AfterPrefix(rounds, k);
    ConfiguredStep(rounds, i, k, c);
    MonitoredStep(rounds, i, k, c);
    if k == i {
      RejectedStep(After(rounds[..k]), rounds[k], c);
    } else {
      FilteredStaysDownIff(rounds, i, k, c);
      MonitoredNow(rounds, i, k, c);
      ClosedStep(After(rounds[..k]), rounds[k], c);
    }
  }

  lemma {:induction false} NewAt(rounds: seq<Round>, k: nat)
    requires k < |rounds|
    ensures NewObjects(rounds) ==> NewIn(After(rounds[..k]), rounds[k])
  {
    hide After, NewIn;
  }

  lemma {:induction false} MonitoredStep(rounds: seq<Round>, i: nat, k: nat, c: Conn)
    requires i <= k < |rounds|
    ensures k == i ==> (MonitoredThrough(rounds, i, k + 1, c) <==> c in After(rounds[..k + 1]).monitored)
    ensures k > i ==> (MonitoredThrough(rounds, i, k + 1, c) <==> MonitoredThrough(rounds, i, k, c) && c in After(rounds[..k + 1]).monitored)
  {
    hide After;
  }

  lemma {:induction false} MonitoredNow(rounds: seq<Round>, i: nat, k: nat, c: Conn)
    requires i < k <= |rounds|
    ensures MonitoredThrough(rounds, i, k, c) ==> c in After(rounds[..k]).monitored
  {
    hide After;
  }

  lemma {:induction false} RejectedStep(w: World, r: Round, c: Conn)
    requires Valid(w) && Possible(w, r) && RejectedIn(w, r, c)
    ensures Down(Iterate(w, r), c) && c in Iterate(w, r).monitored && c in Iterate(w, r).swept
    ensures PoolOf(Iterate(w, r), c) == Closed
  {
    RejectedMonitored(w, r, c);
    hide Valid, Possible, RejectedIn, Iterate, AfterLoad;
    RejectedIsDown(w, r, c);
    SweptGrows(w, r);
  }

  /** A closed pool stays closed, whether or not its source is monitored. */
  lemma {:induction false} ClosedForGood(w: World, r: Round, c: Conn)
    requires Valid(w) && Possible(w, r) && PoolOf(w, c) == Closed
    ensures PoolOf(Iterate(w, r), c) == Closed
  {
    assert r.load.Resolved? ==> DistinctNames(r.load.conns);
    assert forall n :: n in r.names <==> MustStop(AfterSweep(w, r), r.ctxDone, n);
    IterateKeeps(w, r);
    hide Valid, Loaded, Sweep, Possible, Cleanup, MustStop, LoadSources, LoadMetrics;
    ClosedAfterReload(w, r.load, c);
    LoadSourcesKeeps(w, r.load);
    LoadMetricsKeeps(LoadSources(w, r.load), r.presets);
    SweepLoaded(AfterLoad(w, r), AfterSweep(w, r), r.order, r.outcomes);
    CleanupKeeps(AfterSweep(w, r), r.ctxDone, r.names);
  }

  lemma {:induction false} ClosedStep(w: World, r: Round, c: Conn)
    requires Valid(w) && Possible(w, r) && c in w.swept && PoolOf(w, c) == Closed
    ensures var w' := Iterate(w, r);
            && PoolOf(w', c) == Closed && c in w'.swept && (c in w'.monitored ==> Down(w', c))
            && (c in w.monitored ==> (c in w'.monitored <==> StaysConfigured(r.load, c)))
            && (NewIn(w, r) && c !in w.monitored ==> c !in w'.monitored)
  {
    hide Valid, Possible, NewIn, Iterate, AfterLoad, StaysConfigured, PoolOf;
    SweptGrows(w, r);
    ClosedForGood(w, r, c);
    IterateKeeps(w, r);
    var w' := Iterate(w, r);
    if c in w'.monitored {
      ClosedHasNoWorker(w', c);
    }
    if c in w.monitored {
      MonitoredIff(w, r, c);
    } else if NewIn(w, r) {
      GoneForGood(w, r, c);
    }
  }

  lemma {:induction false} RejectedMonitored(w: World, r: Round, c: Conn)
    requires RejectedIn(w, r, c)
    ensures c in AfterLoad(w, r).monitored
  {
  }

  lemma {:induction false} ConfiguredStep(rounds: seq<Round>, i: nat, k: nat, c: Conn)
    requires i <= k < |rounds|
    ensures k == i ==> ConfiguredThrough(rounds, i, k + 1, c)
    ensures k > i ==> (ConfiguredThrough(rounds, i, k + 1, c) <==> ConfiguredThrough(rounds, i, k, c) && StaysConfigured(rounds[k].load, c))
  {
    hide StaysConfigured;
  }

  lemma {:induction false} AfterPrefix(rounds: seq<Round>, k: nat)
    requires PossibleRun(rounds) && k < |rounds|
    ensures After(rounds[..k + 1]) == Iterate(After(rounds[..k]), rounds[k])
    ensures Valid(After(rounds[..k])) && Possible(After(rounds[..k]), rounds[k])
  {
    hide After, Possible, NewIn, Iterate, Valid;
    AfterStep(rounds[..k + 1]);
    assert rounds[..k + 1][..k] == rounds[..k];
    assert Possible(After(rounds[..k]), rounds[k]);
    forall m | 0 <= m < k ensures Possible(After(rounds[..k][..m]), rounds[..k][m]) {
      assert rounds[..k][..m] == rounds[..m];
      assert Possible(After(rounds[..m]), rounds[m]);
    }
    EveryIterationValid(rounds[..k]);
  }

  /** The filter rejects the source. */
  const REJECTED := Outcome(true, true, false, true)

  /** Everything goes well. */
  const WELCOME := Outcome(true, true, false, false)

  /** A source is configured and rejected. */
  function FirstRound(s: Source): Round {
    var c := Conn(0, false, s);
    Round(Resolved([c]), map[], _ => REJECTED, false, [c], [])
  }

  /** The next reload brings the same configuration, and the filter would no longer reject it. */
  function SecondRound(s: Source): Round {
    Round(Resolved([Conn(1, false, s)]), map[], _ => WELCOME, false, [Conn(0, false, s)], [])
  }

  /** One source, swept by itself, with no worker to stop: a round the loop can take. */
  lemma {:induction false} OneSourceRound(w: World, r: Round, c: Conn)
    requires r.load.Resolved? && |r.load.conns| == 1 && r.order == [c] && r.names == []
    requires AfterLoad(w, r).monitored == [c] && AfterSweep(w, r).cancelFuncs == map[]
    ensures Possible(w, r)
  {
    hide AfterLoad, AfterSweep, Find;
    assert forall d :: d in [c] <==> d == c;
  }

  lemma {:induction false} OneSweep(w: World, c: Conn, outcomes: string -> Outcome)
    ensures Sweep(w, [c], outcomes) == SweepOne(w, c, outcomes(c.Name()))
  {
    assert [c][..0] == [];
    hide SweepOne;
    assert Sweep(w, [], outcomes) == w;
  }

  lemma {:induction false} FirstLoad(s: Source)
    ensures var (c, w1) := (Conn(0, false, s), AfterLoad(Fresh, FirstRound(s)));
            w1.monitored == [c] && w1.cancelFuncs == map[] && w1.pools == map[]
  {
    var c := Conn(0, false, s);
    hide Install, Equal;
    assert [c][..0] == [];
    assert ShutdownChanged(Fresh, []) == Fresh && !Differs(Fresh, c);
    assert ShutdownChanged(Fresh, [c]) == Fresh;
    assert MergedList(Fresh, [c]) == [c];
  }

  lemma {:induction false} FirstIsPossible(s: Source)
    ensures Possible(Fresh, FirstRound(s)) && RejectedIn(Fresh, FirstRound(s), Conn(0, false, s))
  {
    var c, r := Conn(0, false, s), FirstRound(s);
    FirstLoad(s);
    var w1 := AfterLoad(Fresh, r);
    OneSweep(w1, c, r.outcomes);
    hide AfterLoad, Sweep, Find;
    assert SweepOne(w1, c, REJECTED).cancelFuncs == map[];
    hide SweepOne;
    OneSourceRound(Fresh, r, c);
  }

  /** What the first round leaves: the one source monitored and down, no worker at all. */
  lemma {:induction false} AfterFirst(s: Source)
    ensures var (c, w) := (Conn(0, false, s), Iterate(Fresh, FirstRound(s)));
            Valid(w) && Down(w, c) && w.monitored == [c] && w.cancelFuncs == map[] && w.swept == {c}
  {
    var c, r := Conn(0, false, s), FirstRound(s);
    FirstIsPossible(s);
    FirstLoad(s);
    FreshValid();
    var w := Iterate(Fresh, r);
    assert AfterLoad(Fresh, r).monitored == LoadSources(Fresh, r.load).monitored;
    hide Iterate, Possible, RejectedIn, AfterLoad, LoadSources;
    IterateKeeps(Fresh, r);
    RejectedStep(Fresh, r, c);
    SameMonitored(Fresh, r);
    SweptGrows(Fresh, r);
    assert (set d | d in [c]) == {c};
    NoWorkerLeft(w, c);
  }

  lemma {:induction false} NoWorkerLeft(w: World, c: Conn)
    requires Valid(w) && w.monitored == [c] && c.Name() !in w.cancelFuncs
    ensures w.cancelFuncs == map[]
  {
    forall n ensures n in w.cancelFuncs ==> n == c.Name() {
      assert WorkerOk(w, n);
    }
    assert w.cancelFuncs.Keys == {};
  }

  lemma {:induction false} SecondLoad(s: Source, w: World)
    requires var c := Conn(0, false, s); Valid(w) && Down(w, c) && w.monitored == [c] && w.cancelFuncs == map[]
    ensures var (c, w1) := (Conn(0, false, s), AfterLoad(w, SecondRound(s)));
            w1.monitored == [c] && w1.cancelFuncs == map[] && PoolOf(w1, c) == Closed && Loaded(w1)
  {
    var c, c1, r := Conn(0, false, s), Conn(1, false, s), SecondRound(s);
    var conns := [c1];
    assert Equal(s, s);
    assert DistinctNames(conns);
    LoadSourcesKeeps(w, r.load);
    LoadMetricsKeeps(LoadSources(w, r.load), r.presets);
    DiffersByConfig(w, c, c1);
    ShutdownChangedResult(w, conns);
    hide Loaded, Valid, Equal, Install, Find, ShutdownChanged, DistinctNames;
    assert MergedList(w, conns) == [c];
    assert forall n :: n !in ShutdownChanged(w, conns).cancelFuncs;
    assert ShutdownChanged(w, conns).cancelFuncs.Keys == {};
  }

  lemma {:induction false} SecondIsPossible(s: Source, w: World)
    requires var c := Conn(0, false, s);
             Valid(w) && Down(w, c) && w.monitored == [c] && w.cancelFuncs == map[] && w.swept == {c}
    ensures Possible(w, SecondRound(s)) && NewIn(w, SecondRound(s))
  {
    var c, r := Conn(0, false, s), SecondRound(s);
    SecondLoad(s, w);
    var w1 := AfterLoad(w, r);
    OneSweep(w1, c, r.outcomes);
    hide AfterLoad, Sweep, SweepOne, Loaded, Valid;
    SweepOneKeeps(w1, c, WELCOME);
    OneSourceRound(w, r, c);
  }

  /** A run in which a source, once rejected, stays down although the filter would let it pass. */
  lemma {:induction false} RejectedSourceStaysDown(s: Source)
    ensures var c, rounds := Conn(0, false, s), [FirstRound(s), SecondRound(s)];
            && PossibleRun(rounds) && NewObjects(rounds) && RejectedIn(Fresh, FirstRound(s), c)
            && !Rejects(c, SecondRound(s).outcomes(s.name)) && Down(After(rounds), c)
  {
    var c, r0, r1 := Conn(0, false, s), FirstRound(s), SecondRound(s);
    assert StaysConfigured(r1.load, c) by {
      assert Conn(1, false, s) in [Conn(1, false, s)] && Equal(s, s);
    }
    assert NewIn(Fresh, r0) && !Rejects(c, r1.outcomes(s.name));
    FirstIsPossible(s);
    AfterFirst(s);
    var w := Iterate(Fresh, r0);
    SecondIsPossible(s, w);
    assert After([]) == Fresh;
    hide Possible, Iterate, Valid, After, NewIn, RejectedIn, StaysConfigured, Rejects, FirstRound, SecondRound;
    TwoRounds(r0, r1);
    ClosedStep(w, r1, c);
  }

  lemma {:induction false} TwoRounds(r0: Round, r1: Round)
    requires Possible(Fresh, r0) && NewIn(Fresh, r0)
    requires Possible(Iterate(Fresh, r0), r1) && NewIn(Iterate(Fresh, r0), r1)
    ensures PossibleRun([r0, r1]) && NewObjects([r0, r1]) && After([r0, r1]) == Iterate(Iterate(Fresh, r0), r1)
  {
    hide Possible, NewIn, Iterate;
    var rounds := [r0, r1];
    assert rounds[..0] == [] && rounds[..1] == [r0] && [r0][..0] == [];
    assert After([r0]) == Iterate(Fresh, r0);
    forall k | 0 <= k < |rounds| ensures Possible(After(rounds[..k]), rounds[k]) && NewIn(After(rounds[..k]), rounds[k]) {
      assert k == 0 || k == 1;
    }
  }
}
