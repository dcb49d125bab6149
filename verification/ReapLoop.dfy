/** The reaper object: the methods of the main loop, each tied to its step. */
module ReapLoop {
  import opened SourceConfig
  import opened ReapWorld
  import opened ReapTheorems

  /** What the outside world decides in one iteration. */
  datatype Inputs = Inputs(load: Load, presets: map<string, Intervals>, outcomes: string -> Outcome, ctxDone: bool)

  /** The sources after presets were installed into `conns`. */
  function Installed(w: World, presets: map<string, Intervals>, conns: seq<Conn>): map<Conn, Source> {
    w.sources + map c | c in conns :: Install(presets, c.isProm, SourceOf(w, c))
  }

  lemma {:induction false} InstalledNone(w: World, presets: map<string, Intervals>)
    ensures Installed(w, presets, []) == w.sources
  {
  }

  lemma {:induction false} InstalledStep(w: World, presets: map<string, Intervals>, conns: seq<Conn>, c: Conn)
    requires c !in conns
    ensures var m := Installed(w, presets, conns);
            && (if c in m then m[c] else c.config) == SourceOf(w, c)
            && Installed(w, presets, conns + [c]) == m[c := Install(presets, c.isProm, SourceOf(w, c))]
  {
    hide Install, SourceOf;
    var m, m' := Installed(w, presets, conns), Installed(w, presets, conns + [c]);
    assert (if c in m then m[c] else c.config) == SourceOf(w, c) by {
      SourceIs(w, c);
    }
    forall d ensures d in m' <==> d in m || d == c {
      assert d in conns + [c] <==> d in conns || d == c;
    }
  }

  lemma {:induction false} SourceIs(w: World, c: Conn)
    ensures SourceOf(w, c) == if c in w.sources then w.sources[c] else c.config
  {
  }

  class Reaper {
    var monitored: seq<Conn>
    var previous: seq<Conn>
    var cancelFuncs: map<string, Worker>
    var pools: map<Conn, Pool>
    var sources: map<Conn, Source>
    var launched: nat
    ghost var swept: set<Conn>
    ghost var cancelled: set<Worker>

    ghost function View(): World
      reads this
    {
      World(monitored, previous, cancelFuncs, pools, sources, launched, swept, cancelled)
    }

    constructor ()
      ensures View() == Fresh
    {
      monitored, previous, cancelFuncs, pools, sources := [], [], map[], map[], map[];
      launched, swept, cancelled := 0, {}, {};
    }

    method CloseConn(c: Conn)
      modifies this`pools
      ensures View() == Close(old(View()), c)
    {
      if !c.isProm && c in pools && pools[c] == Open {
        pools := pools[c := Closed];
      }
    }

    method ShutdownWorker(name: string)
      modifies this
      ensures View() == Shutdown(old(View()), name)
    {
      if name in cancelFuncs {
        cancelled := cancelled + {cancelFuncs[name]};
        cancelFuncs := cancelFuncs - {name};
      }
      match Find(monitored, name) {
        case Missing =>
        case Found(c) =>
          CloseConn(c);
      }
    }

    method StartWorker(c: Conn)
      modifies this
      ensures View() == Start(old(View()), c)
    {
      if c.Name() in cancelFuncs {
        return;
      }
      cancelFuncs := cancelFuncs[c.Name() := Worker(launched, c)];
      launched := launched + 1;
    }

    /** Opens a pool if there never was one, then pings; a closed pool cannot be pinged. */
    method ConnectConn(c: Conn, o: Outcome) returns (ok: bool)
      modifies this`pools
      ensures View() == Connect(old(View()), c, o)
      ensures ok <==> o.pings && PoolOf(View(), c) == Open
    {
      if c !in pools || pools[c] == NoPool {
        if !o.opens {
          return false;
        }
        pools := pools[c := Open];
      }
      return o.pings && pools[c] == Open;
    }

    /** One goroutine of the sweep. */
    method SweepSource(c: Conn, o: Outcome)
      modifies this
      ensures View() == SweepOne(old(View()), c, o)
    {
      var ok := ConnectConn(c, o);
      swept := swept + {c};
      hide Shutdown, Start, Connect;
      if !ok {
        return;
      }
      if !c.isProm {
        if o.infoFails {
          return;
        }
        if o.filtered {
          ShutdownWorker(c.Name());
          return;
        }
      }
      StartWorker(c);
    }

    /** All sources, in whatever order their goroutines run. */
    method SweepAll(outcomes: string -> Outcome) returns (ghost order: seq<Conn>)
      requires Loaded(View())
      modifies this
      ensures View() == Sweep(old(View()), order, outcomes)
      ensures Enumerates(order, c => c in old(monitored))
    {
      ghost var start := View();
      order := [];
      var todo := set c | c in monitored;
      hide Loaded, SweepOne;
      while todo != {}
        invariant View() == Sweep(start, order, outcomes)
        invariant forall c :: c in start.monitored <==> c in todo || c in order
        invariant forall c :: c in todo ==> c !in order
        invariant forall i, j :: 0 <= i < j < |order| ==> order[i] != order[j]
        decreases |todo|
      {
        var c :| c in todo;
        SweepSource(c, outcomes(c.Name()));
        assert (order + [c])[..|order|] == order;
        order, todo := order + [c], todo - {c};
      }
    }

    /** The reload loop over the resolved sources. */
    method MergeSources(conns: seq<Conn>) returns (newSrcs: seq<Conn>)
      requires Loaded(View())
      modifies this
      ensures View() == ShutdownChanged(old(View()), conns)
      ensures newSrcs == MergedList(old(View()), conns)
    {
      ghost var start := View();
      newSrcs := [];
      for i := 0 to |conns|
        invariant View() == ShutdownChanged(start, conns[..i])
        invariant newSrcs == MergedList(start, conns[..i])
      {
        hide Loaded, Shutdown, Equal, ReloadResult, ShutdownChanged, MergedList, Find;
        var r := conns[i];
        MergeStep(start, conns, i);
        var md := Find(monitored, r.Name());
        var kept := r;
        if md.Found? {
          var mdSource := if md.conn in sources then sources[md.conn] else md.conn.config;
          var newSource := if r in sources then sources[r] else r.config;
          if Equal(mdSource, newSource) {
            kept := md.conn;
          } else {
            ShutdownWorker(md.conn.Name());
          }
        }
        newSrcs := newSrcs + [kept];
      }
      assert conns[..|conns|] == conns;
    }

    method LoadSources(load: Load)
      requires Loaded(View())
      modifies this
      ensures View() == ReapWorld.LoadSources(old(View()), load)
    {
      match load {
        case Paused =>
          monitored := [];
        case ReadError =>
        case Resolved(conns) =>
          var newSrcs := MergeSources(conns);
          monitored := newSrcs;
      }
    }

    /** Presets become intervals, source by source. */
    method LoadMetrics(presets: map<string, Intervals>)
      requires DistinctNames(monitored)
      modifies this`sources
      ensures View() == ReapWorld.LoadMetrics(old(View()), presets)
    {
      ghost var start := View();
      hide Install;
      InstalledNone(start, presets);
      for i := 0 to |monitored|
        invariant sources == Installed(start, presets, monitored[..i])
      {
        var c := monitored[i];
        assert c !in monitored[..i] by { assert forall j :: 0 <= j < i ==> monitored[j].Name() != c.Name(); }
        InstalledStep(start, presets, monitored[..i], c);
        assert monitored[..i + 1] == monitored[..i] + [c];
        hide Installed;
        var s := if c in sources then sources[c] else c.config;
        sources := sources[c := Install(presets, c.isProm, s)];
      }
      assert monitored[..|monitored|] == monitored;
    }

    /** Workers of vanished names, or all of them once the context has ended. */
    method StopWorkers(ctxDone: bool) returns (ghost names: seq<string>)
      requires Loaded(View())
      modifies this
      ensures View() == ShutdownAll(old(View()), names)
      ensures Enumerates(names, n => MustStop(old(View()), ctxDone, n))
    {
      ghost var start := View();
      names := [];
      var todo := cancelFuncs.Keys;
      hide Loaded, Shutdown;
      while todo != {}
        invariant View() == ShutdownAll(start, names) && monitored == start.monitored
        invariant todo <= start.cancelFuncs.Keys
        invariant forall n :: n in names <==> n !in todo && MustStop(start, ctxDone, n)
        invariant forall i, j :: 0 <= i < j < |names| ==> names[i] != names[j]
        decreases |todo|
      {
        var n :| n in todo;
        todo := todo - {n};
        if ctxDone || Find(monitored, n).Missing? {
          ShutdownAllResult(start, names);
          ghost var w1 := View();
          ShutdownWorker(n);
          ShutdownEffect(w1, n);
          assert (names + [n])[..|names|] == names;
          names := names + [n];
        }
      }
    }

    method CleanupRemovedWorkers(ctxDone: bool) returns (ghost names: seq<string>)
      requires Loaded(View())
      modifies this
      ensures View() == Cleanup(old(View()), names)
      ensures Enumerates(names, n => MustStop(old(View()), ctxDone, n))
    {
      ghost var start := View();
      names := StopWorkers(ctxDone);
      ShutdownAllResult(start, names);
      ghost var w1 := View();
      assert SameLists(start, w1);
      hide Loaded, Find, Close, CloseGone, ShutdownAll, StopResult, Enumerates, MustStop;
      CloseNone(w1, previous);
      for i := 0 to |previous|
        invariant View() == CloseGone(w1, start.previous[..i]) && previous == start.previous && monitored == start.monitored
      {
        CloseOneMore(w1, previous, i);
        if Find(monitored, previous[i].Name()).Missing? {
          CloseConn(previous[i]);
        }
      }
      assert previous[..|previous|] == previous;
      previous := monitored;
    }

    /** One iteration of the main loop, in some order of goroutines and map iteration. */
    method Iteration(inp: Inputs) returns (ghost r: Round)
      requires Valid(View()) && (inp.load.Resolved? ==> DistinctNames(inp.load.conns))
      modifies this
      ensures r.load == inp.load && r.presets == inp.presets && r.outcomes == inp.outcomes && r.ctxDone == inp.ctxDone
      ensures Possible(old(View()), r) && View() == Iterate(old(View()), r) && Valid(View())
    {
      ghost var w := View();
      LoadSources(inp.load);
      LoadSourcesKeeps(w, inp.load);
      LoadMetrics(inp.presets);
      LoadMetricsKeeps(ReapWorld.LoadSources(w, inp.load), inp.presets);
      ghost var w1 := View();
      ghost var order := SweepAll(inp.outcomes);
      SweepKeeps(w1, order, inp.outcomes);
      ghost var w2 := View();
      ghost var names := CleanupRemovedWorkers(inp.ctxDone);
      r := Round(inp.load, inp.presets, inp.outcomes, inp.ctxDone, order, names);
      assert AfterLoad(w, r) == w1 && AfterSweep(w, r) == w2;
      hide Valid, Loaded, ReapWorld.LoadSources, ReapWorld.LoadMetrics, Sweep, Cleanup;
      IterateKeeps(w, r);
    }

    /** Any number of iterations: every one of them ends in a valid state. */
    method Reap(inputs: seq<Inputs>) returns (ghost rounds: seq<Round>)
      requires View() == Fresh
      requires forall i :: 0 <= i < |inputs| && inputs[i].load.Resolved? ==> DistinctNames(inputs[i].load.conns)
      modifies this
      ensures PossibleRun(rounds) && |rounds| == |inputs| && View() == After(rounds) && Valid(View())
    {
      rounds := [];
      FreshValid();
      hide Valid, Possible, Iterate;
      for i := 0 to |inputs|
        invariant |rounds| == i && PossibleRun(rounds) && View() == After(rounds) && Valid(View())
      {
        var r := Iteration(inputs[i]);
        PossibleAppend(rounds, r);
        rounds := rounds + [r];
      }
    }
  }

  lemma {:induction false} PossibleAppend(rounds: seq<Round>, r: Round)
    requires PossibleRun(rounds) && Possible(After(rounds), r)
    ensures PossibleRun(rounds + [r]) && After(rounds + [r]) == Iterate(After(rounds), r)
  {
    hide Possible, Iterate;
    var more := rounds + [r];
    assert more[..|rounds|] == rounds;
    forall i | 0 <= i < |more| ensures Possible(After(more[..i]), more[i]) {
      if i < |rounds| {
        assert more[..i] == rounds[..i];
        assert Possible(After(rounds[..i]), rounds[i]);
      }
    }
  }

  lemma {:induction false} CloseNone(w: World, conns: seq<Conn>)
    ensures CloseGone(w, conns[..0]) == w
  {
  }

  lemma {:induction false} CloseOneMore(w: World, conns: seq<Conn>, i: nat)
    requires i < |conns|
    ensures CloseGone(w, conns[..i + 1]) ==
      if Find(w.monitored, conns[i].Name()).Missing? then Close(CloseGone(w, conns[..i]), conns[i]) else CloseGone(w, conns[..i])
  {
    hide Find, Close;
    assert conns[..i + 1][..i] == conns[..i];
  }

  /** One more resolved source: whether it changes the world, and what it adds to the list. */
  lemma {:induction false} MergeStep(w: World, conns: seq<Conn>, i: nat)
    requires Loaded(w) && i < |conns|
    ensures SameLists(w, ShutdownChanged(w, conns[..i]))
    ensures ShutdownChanged(w, conns[..i + 1]) ==
      if Differs(w, conns[i]) then Shutdown(ShutdownChanged(w, conns[..i]), conns[i].Name()) else ShutdownChanged(w, conns[..i])
    ensures MergedList(w, conns[..i + 1]) == MergedList(w, conns[..i]) + [Merged(w, conns[i])]
  {
    ShutdownChangedResult(w, conns[..i]);
    assert conns[..i + 1][..i] == conns[..i] && conns[..i + 1][i] == conns[i];
    hide Loaded, Shutdown, Differs, Merged, MergedList;
  }
}
