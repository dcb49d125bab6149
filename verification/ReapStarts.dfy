/** What an iteration brings about: which sources are monitored, which get a worker, and with which intervals. */
module ReapStarts {
  import opened SourceConfig
  import opened ReapWorld
  import opened ReapTheorems
  import opened ReapFilter

  /** A worker runs on this very connection object. */
  predicate Working(w: World, c: Conn) {
    c.Name() in w.cancelFuncs && w.cancelFuncs[c.Name()].conn == c
  }

  /** Among monitored connections, having a worker is having one on the object. */
  lemma {:induction false} WorkingIff(w: World, c: Conn)
    requires Loaded(w) && c in w.monitored
    ensures Working(w, c) <==> c.Name() in w.cancelFuncs
  {
    hide Loaded;
    if c.Name() in w.cancelFuncs {
      WorkerConn(w, c);
    }
  }

  /** The sweep reaches the source and nothing speaks against a worker. */
  predicate Welcomes(pool: Pool, c: Conn, o: Outcome) {
    && (pool == Open || (pool == NoPool && o.opens)) && o.pings
    && (c.isProm || (!o.infoFails && !o.filtered))
  }

  /** A running worker is stopped by the filter only. */
  predicate Bars(c: Conn, o: Outcome) {
    !c.isProm && o.pings && !o.infoFails && o.filtered
  }

  lemma {:induction false} SweepOneWorker(w: World, c: Conn, o: Outcome)
    requires Loaded(w) && c in w.monitored
    ensures c.Name() in SweepOne(w, c, o).cancelFuncs <==>
      if c.Name() in w.cancelFuncs then !Bars(c, o) else Welcomes(PoolOf(w, c), c, o)
  {
    SweepOneKeeps(w, c, o);
    if c.Name() !in w.cancelFuncs {
      ConnectKeeps(w, c, o);
      ShutdownEffect(Connect(w, c, o).(swept := w.swept + {c}), c.Name());
    }
    hide Loaded, Connect, Shutdown, Find, PoolOf, SameLists;
  }

  lemma {:induction false} SweepOtherWorker(w: World, order: seq<Conn>, outcomes: string -> Outcome, c: Conn)
    requires Loaded(w) && Sweepable(w, order) && c in w.monitored && c !in order
    ensures c.Name() in Sweep(w, order, outcomes).cancelFuncs <==> c.Name() in w.cancelFuncs
  {
    if order != [] {
      hide *;
      var most, d := order[..|order| - 1], order[|order| - 1];
      SweepLast(w, order, outcomes);
      SweepOtherWorker(w, most, outcomes, c);
      SweepOneKeeps(Sweep(w, most, outcomes), d, outcomes(d.Name()));
      SweptMonitored(w, order, d);
      NamesDiffer(w, c, d);
    }
  }

  lemma {:induction false} SweptMonitored(w: World, order: seq<Conn>, c: Conn)
    requires Sweepable(w, order) && c in order
    ensures c in w.monitored
  {
  }

  lemma {:induction false} NamesDiffer(w: World, c: Conn, d: Conn)
    requires Loaded(w) && c in w.monitored && d in w.monitored && c != d
    ensures c.Name() != d.Name()
  {
    FindDistinct(w.monitored, c);
    FindDistinct(w.monitored, d);
  }

  /** The sweep, in any order: a source gets or keeps a worker by its own pool and outcome alone. */
  lemma {:induction false} SweepWorker(w: World, order: seq<Conn>, outcomes: string -> Outcome, c: Conn)
    requires Loaded(w) && Sweepable(w, order) && c in order && c in w.monitored
    ensures c.Name() in Sweep(w, order, outcomes).cancelFuncs <==>
      if c.Name() in w.cancelFuncs then !Bars(c, outcomes(c.Name())) else Welcomes(PoolOf(w, c), c, outcomes(c.Name()))
  {
    hide *;
    var most, d := order[..|order| - 1], order[|order| - 1];
    SweepLast(w, order, outcomes);
    var w1 := Sweep(w, most, outcomes);
    if d == c {
      SweepOthers(w, most, outcomes, c);
      SweepOtherWorker(w, most, outcomes, c);
      SweepOneWorker(w1, c, outcomes(c.Name()));
    } else {
      SweepWorker(w, most, outcomes, c);
      SweepOneKeeps(w1, d, outcomes(d.Name()));
      SweptMonitored(w, order, d);
      NamesDiffer(w, c, d);
    }
  }

  /** A reload leaves a monitored object its own worker and pool, and no other object's. */
  lemma {:induction false} LoadedWorker(w: World, r: Round, c: Conn)
    requires Valid(w) && Possible(w, r) && c in AfterLoad(w, r).monitored
    ensures c.Name() in AfterLoad(w, r).cancelFuncs <==> Working(w, c)
    ensures PoolOf(AfterLoad(w, r), c) == PoolOf(w, c)
  {
    assert r.load.Resolved? ==> DistinctNames(r.load.conns);
    assert forall n :: n in w.cancelFuncs ==> w.cancelFuncs[n].conn in w.monitored;
    match r.load {
      case Paused =>
      case ReadError =>
        WorkingIff(w, c);
      case Resolved(conns) =>
        ResolvedWorker(w, conns, c);
    }
  }

  lemma {:induction false} ResolvedWorker(w: World, conns: seq<Conn>, c: Conn)
    requires Valid(w) && DistinctNames(conns) && c in MergedList(w, conns)
    ensures c.Name() in ShutdownChanged(w, conns).cancelFuncs <==> Working(w, c)
    ensures PoolOf(ShutdownChanged(w, conns), c) == PoolOf(w, c)
  {
    if c in w.monitored {
      KeptUnchanged(w, conns, c);
      WorkingIff(w, c);
    } else {
      NewReplaces(w, conns, c);
    }
    hide Changed, ShutdownChanged, Loaded, MergedList, Find;
    ShutdownChangedResult(w, conns);
  }

  lemma {:induction false} KeptUnchanged(w: World, conns: seq<Conn>, c: Conn)
    requires Valid(w) && DistinctNames(conns) && c in MergedList(w, conns) && c in w.monitored
    ensures !Changed(w, conns, c.Name())
  {
    hide Valid, Changed, DistinctNames, ShutdownChanged, MergedList;
    StaysMonitored(w, Resolved(conns), c);
  }

  lemma {:induction false} NewReplaces(w: World, conns: seq<Conn>, c: Conn)
    requires Valid(w) && c in MergedList(w, conns) && c !in w.monitored
    ensures !Working(w, c) && (c.Name() in w.cancelFuncs ==> Changed(w, conns, c.Name()))
  {
    hide Valid, Equal;
    var list := MergedList(w, conns);
    var j :| 0 <= j < |list| && list[j] == c;
    assert conns[j] in conns && c == Merged(w, conns[j]) && c == conns[j];
    if c.Name() in w.cancelFuncs {
      WorkerIsMonitored(w, c.Name());
      FindDistinct(w.monitored, w.cancelFuncs[c.Name()].conn);
      assert Differs(w, conns[j]);
    }
  }

  lemma {:induction false} WorkerIsMonitored(w: World, n: string)
    requires Valid(w) && n in w.cancelFuncs
    ensures w.cancelFuncs[n].conn in w.monitored && w.cancelFuncs[n].conn.Name() == n && DistinctNames(w.monitored)
  {
    assert WorkerOk(w, n);
  }

  /**
   * After an iteration a worker runs on a monitored connection if and only if the context lives on and either one
   * ran on it before and the filter does not reject it now, or its pool is open or opens now, it answers, and it is
   * a Prometheus source or its state can be read and the filter lets it pass.
   */
  lemma {:induction false} WorkedOnIff(w: World, r: Round, c: Conn)
    requires Valid(w) && Possible(w, r) && c in Iterate(w, r).monitored
    ensures var o := r.outcomes(c.Name());
            Working(Iterate(w, r), c) <==>
              && !r.ctxDone
              && if Working(w, c) then !(!c.isProm && o.pings && !o.infoFails && o.filtered)
                 else && (PoolOf(w, c) == Open || (PoolOf(w, c) == NoPool && o.opens)) && o.pings
                      && (c.isProm || (!o.infoFails && !o.filtered))
  {
    hide Valid, Loaded, Sweep, Iterate, AfterLoad, AfterSweep, Possible, MustStop, Find, Working, PoolOf, LoadSources;
    SameMonitored(w, r);
    IterateKeeps(w, r);
    AfterLoadMonitored(w, r);
    OrderIsMonitored(w, r, c);
    LoadedWorker(w, r, c);
    SweepIs(w, r);
    SweepWorker(AfterLoad(w, r), r.order, r.outcomes, c);
    StoppedAtEnd(w, r, c);
    WorkingAfter(w, r, c);
  }

  lemma {:induction false} AfterLoadMonitored(w: World, r: Round)
    ensures AfterLoad(w, r).monitored == LoadSources(w, r.load).monitored
  {
    hide LoadSources, Install;
  }

  lemma {:induction false} SweepIs(w: World, r: Round)
    ensures AfterSweep(w, r) == Sweep(AfterLoad(w, r), r.order, r.outcomes)
  {
    hide Sweep, AfterLoad;
  }

  lemma {:induction false} WorkingAfter(w: World, r: Round, c: Conn)
    requires Valid(Iterate(w, r)) && c in Iterate(w, r).monitored
    ensures Working(Iterate(w, r), c) <==> c.Name() in Iterate(w, r).cancelFuncs
  {
    hide Iterate;
    WorkingIff(Iterate(w, r), c);
  }

  lemma {:induction false} StoppedAtEnd(w: World, r: Round, c: Conn)
    requires Possible(w, r) && Loaded(AfterSweep(w, r)) && c in Iterate(w, r).monitored
    ensures c.Name() in Iterate(w, r).cancelFuncs <==> c.Name() in AfterSweep(w, r).cancelFuncs && !r.ctxDone
  {
    assert forall n :: n in r.names <==> MustStop(AfterSweep(w, r), r.ctxDone, n);
    hide Loaded, AfterSweep, Cleanup, Valid, Possible;
    CleanupKeeps(AfterSweep(w, r), r.ctxDone, r.names);
    assert Iterate(w, r) == Cleanup(AfterSweep(w, r), r.names);
  }

  /** ... in every round of every run. */
  lemma {:induction false} WorkedOnInRun(rounds: seq<Round>, i: nat, c: Conn)
    requires PossibleRun(rounds) && i < |rounds| && c in After(rounds[..i + 1]).monitored
    ensures var (w, r, o) := (After(rounds[..i]), rounds[i], rounds[i].outcomes(c.Name()));
            Working(After(rounds[..i + 1]), c) <==>
              && !r.ctxDone
              && if Working(w, c) then !(!c.isProm && o.pings && !o.infoFails && o.filtered)
                 else && (PoolOf(w, c) == Open || (PoolOf(w, c) == NoPool && o.opens)) && o.pings
                      && (c.isProm || (!o.infoFails && !o.filtered))
  {
    hide *;
    AfterPrefix(rounds, i);
    WorkedOnIff(After(rounds[..i]), rounds[i], c);
  }

  /** A resolved source is monitored: the connection of an equal configuration if there was one, else the resolved one. */
  lemma {:induction false} MonitoredAre(w: World, r: Round)
    requires Valid(w) && Possible(w, r)
    ensures r.load.Paused? ==> Iterate(w, r).monitored == []
    ensures r.load.ReadError? ==> Iterate(w, r).monitored == w.monitored
    ensures r.load.Resolved? ==>
      && |Iterate(w, r).monitored| == |r.load.conns|
      && forall j :: 0 <= j < |r.load.conns| ==>
           && (Iterate(w, r).monitored[j] == r.load.conns[j] || Iterate(w, r).monitored[j] in w.monitored)
           && (forall d :: d in w.monitored && d.Name() == r.load.conns[j].Name() ==>
                 Iterate(w, r).monitored[j] == if Equal(d.config, r.load.conns[j].config) then d else r.load.conns[j])
           && ((forall d :: d in w.monitored ==> d.Name() != r.load.conns[j].Name()) ==> Iterate(w, r).monitored[j] == r.load.conns[j])
  {
    SameMonitored(w, r);
    assert Loaded(w);
    hide Iterate, Possible, Loaded, Equal;
    if r.load.Resolved? {
      var conns := r.load.conns;
      forall j | 0 <= j < |conns|
        ensures var m := Iterate(w, r).monitored[j];
                && (m == conns[j] || m in w.monitored)
                && (forall d :: d in w.monitored && d.Name() == conns[j].Name() ==> m == if Equal(d.config, conns[j].config) then d else conns[j])
                && ((forall d :: d in w.monitored ==> d.Name() != conns[j].Name()) ==> m == conns[j])
      {
        assert Iterate(w, r).monitored[j] == Merged(w, conns[j]);
        forall d | d in w.monitored && d.Name() == conns[j].Name()
          ensures Merged(w, conns[j]) == if Equal(d.config, conns[j].config) then d else conns[j]
        {
          DiffersByConfig(w, d, conns[j]);
        }
      }
    }
  }

  /** The intervals a source works with: those of a preset that is known, its own otherwise. */
  lemma {:induction false} IntervalsAre(w: World, r: Round, c: Conn)
    requires Valid(w) && Possible(w, r) && c in Iterate(w, r).monitored
    ensures var (s, s') := (SourceOf(w, c), SourceOf(Iterate(w, r), c));
            && s'.metrics == (if s.presetMetrics != "" && s.presetMetrics in r.presets && r.presets[s.presetMetrics].Intervals?
                              then r.presets[s.presetMetrics] else s.metrics)
            && s'.metricsStandby == (if !c.isProm && s.presetMetricsStandby != "" && s.presetMetricsStandby in r.presets &&
                                        r.presets[s.presetMetricsStandby].Intervals?
                                     then r.presets[s.presetMetricsStandby] else s.metricsStandby)
            && s' == s.(metrics := s'.metrics, metricsStandby := s'.metricsStandby)
  {
    SourcesKept(w, r);
    var w1 := LoadSources(w, r.load);
    SameMonitored(w, r);
    InstallMeans(r.presets, c.isProm, SourceOf(w, c));
    assert SourceOf(AfterLoad(w, r), c) == Install(r.presets, c.isProm, SourceOf(w1, c));
    assert SourceOf(w1, c) == SourceOf(w, c);
    hide Iterate, Valid, Possible, Install, LoadSources, AfterLoad;
  }

  lemma {:induction false} SourcesKept(w: World, r: Round)
    requires Valid(w) && Possible(w, r)
    ensures LoadSources(w, r.load).sources == w.sources
    ensures Iterate(w, r).sources == AfterLoad(w, r).sources
  {
    assert Loaded(w);
    hide Loaded, Valid, Sweep, ShutdownAll, CloseGone, LoadMetrics, Possible, ShutdownChanged, AfterLoad, AfterSweep, SweepResult, Changed, Find, PoolOf;
    SameMonitored(w, r);
    IterateKeeps(w, r);
    if r.load.Resolved? {
      ShutdownChangedResult(w, r.load.conns);
    }
    SweepLoaded(AfterLoad(w, r), AfterSweep(w, r), r.order, r.outcomes);
    ShutdownAllResult(AfterSweep(w, r), r.names);
    CloseGoneResult(ShutdownAll(AfterSweep(w, r), r.names), AfterSweep(w, r).previous);
  }
}
