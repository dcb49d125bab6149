/** What every iteration of every run of the main loop keeps. */
module ReapTheorems {
  import opened SourceConfig
  import opened ReapWorld

  /** What a step leaves alone. */
  predicate SameLists(w: World, w': World) {
    w'.monitored == w.monitored && w'.previous == w.previous && w'.sources == w.sources
  }

  /** Shutting down a name affects that worker and that monitored connection only. */
  lemma {:induction false} ShutdownEffect(w: World, name: string)
    requires Loaded(w)
    ensures var w' := Shutdown(w, name);
            && SameLists(w, w') && w'.swept == w.swept && w'.launched == w.launched
            && w'.cancelFuncs == w.cancelFuncs - {name}
            && (forall c :: PoolOf(w', c) ==
                  if c in w.monitored && c.Name() == name && !c.isProm && PoolOf(w, c) == Open then Closed else PoolOf(w, c))
            && w'.cancelled == w.cancelled + if name in w.cancelFuncs then {w.cancelFuncs[name]} else {}
  {
    var w' := Shutdown(w, name);
    assert name !in w.cancelFuncs ==> w.cancelFuncs - {name} == w.cancelFuncs;
    forall c
      ensures PoolOf(w', c) ==
              if c in w.monitored && c.Name() == name && !c.isProm && PoolOf(w, c) == Open then Closed else PoolOf(w, c)
    {
      if c in w.monitored && c.Name() == name {
        FindDistinct(w.monitored, c);
      }
    }
  }

  /** The rest of the invariant, from a step's effect. */
  lemma {:induction false} ShutdownKeeps(w: World, name: string)
    requires Loaded(w)
    ensures Loaded(Shutdown(w, name))
  {
    ShutdownEffect(w, name);
    var w' := Shutdown(w, name);
    hide Shutdown, DistinctNames, Find, Essence;
    forall n ensures WorkerOk(w', n) { assert WorkerOk(w, n) && WorkerOk(w, name); }
    forall c ensures NoLeak(w', c) { assert NoLeak(w, c); }
    forall c ensures Faithful(w', c) { assert Faithful(w, c); }
    forall k | k in w'.cancelled ensures k.id < w'.launched { assert WorkerOk(w, name); }
  }

  lemma {:induction false} ConnectKeeps(w: World, c: Conn, o: Outcome)
    requires Loaded(w) && c in w.monitored
    ensures var w' := Connect(w, c, o).(swept := w.swept + {c});
            && Loaded(w') && SameLists(w, w') && w'.cancelFuncs == w.cancelFuncs
            && (forall d :: d != c ==> PoolOf(w', d) == PoolOf(w, d))
            && PoolOf(w', c) == if PoolOf(w, c) == NoPool && o.opens then Open else PoolOf(w, c)
  {
    var w' := Connect(w, c, o).(swept := w.swept + {c});
    hide DistinctNames, Find, Essence;
    forall n ensures WorkerOk(w', n) { assert WorkerOk(w, n); }
    forall d ensures NoLeak(w', d) { assert NoLeak(w, d); }
    forall d ensures Faithful(w', d) { assert Faithful(w, d); }
  }

  lemma {:induction false} StartKeeps(w: World, c: Conn)
    requires Loaded(w) && c in w.monitored && PoolOf(w, c) == Open
    ensures Loaded(Start(w, c))
  {
    var w' := Start(w, c);
    hide DistinctNames, Find, Essence;
    forall n ensures WorkerOk(w', n) { assert WorkerOk(w, n); }
    forall d ensures NoLeak(w', d) { assert NoLeak(w, d); }
    forall d ensures Faithful(w', d) { assert Faithful(w, d); }
  }

  /** The sweep gets as far as the filter and the filter rejects the source. */
  predicate Rejects(c: Conn, o: Outcome) {
    !c.isProm && o.pings && !o.infoFails && o.filtered
  }

  /** A registered worker of a monitored name runs on that name's connection, which is open. */
  lemma {:induction false} WorkerConn(w: World, c: Conn)
    requires Loaded(w) && c in w.monitored && c.Name() in w.cancelFuncs
    ensures w.cancelFuncs[c.Name()].conn == c && PoolOf(w, c) == Open
  {
    assert WorkerOk(w, c.Name());
    FindDistinct(w.monitored, c);
    FindDistinct(w.monitored, w.cancelFuncs[c.Name()].conn);
  }

  /** One goroutine of the sweep. */
  lemma {:induction false} SweepOneKeeps(w: World, c: Conn, o: Outcome)
    requires Loaded(w) && c in w.monitored
    ensures var w' := SweepOne(w, c, o);
            && Loaded(w') && SameLists(w, w')
            && (forall n :: n != c.Name() ==> (n in w'.cancelFuncs <==> n in w.cancelFuncs))
            && (forall n :: n != c.Name() && n in w.cancelFuncs ==> w'.cancelFuncs[n] == w.cancelFuncs[n])
            && (c.Name() in w.cancelFuncs ==>
                  if Rejects(c, o) then c.Name() !in w'.cancelFuncs
                  else c.Name() in w'.cancelFuncs && w'.cancelFuncs[c.Name()] == w.cancelFuncs[c.Name()])
            && (forall d :: d != c ==> PoolOf(w', d) == PoolOf(w, d))
            && (PoolOf(w, c) == Closed ==> PoolOf(w', c) == Closed && w'.cancelFuncs == w.cancelFuncs)
  {
    ConnectKeeps(w, c, o);
    if c.Name() in w.cancelFuncs {
      WorkerConn(w, c);
    }
    var w1 := Connect(w, c, o).(swept := w.swept + {c});
    ShutdownKeeps(w1, c.Name());
    ShutdownEffect(w1, c.Name());
    FindDistinct(w.monitored, c);
    forall d | d != c && d in w.monitored ensures d.Name() != c.Name() { FindDistinct(w.monitored, d); }
    if PoolOf(w1, c) == Open {
      StartKeeps(w1, c);
    }
    hide Loaded, Connect, Shutdown, DistinctNames, Find;
  }

  /** The whole sweep: a registered worker stays unless its source was among the swept ones and rejected;
      a closed pool stays closed and gets no worker. */
  ghost predicate SweepResult(w: World, w': World, order: seq<Conn>, outcomes: string -> Outcome) {
    && Loaded(w') && SameLists(w, w')
    && (forall c :: c in w.monitored ==> SweptWorker(w, w', c, c in order && Rejects(c, outcomes(c.Name()))))
    && (forall n :: Find(w.monitored, n).Missing? ==> SameWorker(w, w', n))
    && (forall c :: PoolOf(w, c) == Closed ==> PoolOf(w', c) == Closed)
  }

  predicate SameWorker(w: World, w': World, n: string) {
    (n in w'.cancelFuncs <==> n in w.cancelFuncs) && (n in w.cancelFuncs ==> w'.cancelFuncs[n] == w.cancelFuncs[n])
  }

  predicate SweptWorker(w: World, w': World, c: Conn, rejected: bool) {
    c.Name() in w.cancelFuncs ==> if rejected then c.Name() !in w'.cancelFuncs else SameWorker(w, w', c.Name())
  }

  lemma {:induction false} SweepStep(w: World, w1: World, order: seq<Conn>, c: Conn, outcomes: string -> Outcome)
    requires Loaded(w) && SweepResult(w, w1, order, outcomes) && c in w.monitored && c !in order
    ensures SweepResult(w, SweepOne(w1, c, outcomes(c.Name())), order + [c], outcomes)
  {
    assert DistinctNames(w.monitored);
    hide Loaded, SweepOne, DistinctNames, Rejects, PoolOf;
    SweepOneKeeps(w1, c, outcomes(c.Name()));
    var w' := SweepOne(w1, c, outcomes(c.Name()));
    forall d | d in w.monitored
      ensures SweptWorker(w, w', d, d in order + [c] && Rejects(d, outcomes(d.Name())))
    {
      assert SweptWorker(w, w1, d, d in order && Rejects(d, outcomes(d.Name())));
      FindDistinct(w.monitored, d);
      FindDistinct(w.monitored, c);
    }
    forall n | Find(w.monitored, n).Missing?
      ensures SameWorker(w, w', n)
    {
      assert SameWorker(w, w1, n);
    }
  }

  lemma {:induction false} SweepKeeps(w: World, order: seq<Conn>, outcomes: string -> Outcome)
    requires Loaded(w) && forall c :: c in order ==> c in w.monitored
    requires forall i, j :: 0 <= i < j < |order| ==> order[i] != order[j]
    ensures SweepResult(w, Sweep(w, order, outcomes), order, outcomes)
  {
    if order != [] {
      var most, c := order[..|order| - 1], order[|order| - 1];
      assert order == most + [c] && Sweep(w, order, outcomes) == SweepOne(Sweep(w, most, outcomes), c, outcomes(c.Name()));
      hide *;
      SweepKeeps(w, most, outcomes);
      SweepStep(w, Sweep(w, most, outcomes), most, c, outcomes);
    }
  }

  /** Some resolved source of that name differs from the monitored one. */
  ghost predicate Changed(w: World, conns: seq<Conn>, n: string) {
    exists r :: r in conns && r.Name() == n && Differs(w, r)
  }

  ghost predicate ReloadResult(w: World, w': World, conns: seq<Conn>) {
    && Loaded(w') && SameLists(w, w') && w'.swept == w.swept
    && (forall n :: n in w'.cancelFuncs <==> n in w.cancelFuncs && !Changed(w, conns, n))
    && (forall n :: n in w'.cancelFuncs ==> w'.cancelFuncs[n] == w.cancelFuncs[n])
    && (forall c :: PoolOf(w', c) ==
          if c in w.monitored && Changed(w, conns, c.Name()) && !c.isProm && PoolOf(w, c) == Open then Closed else PoolOf(w, c))
  }

  lemma {:induction false} ChangedAppend(w: World, conns: seq<Conn>, r: Conn)
    ensures forall n :: Changed(w, conns + [r], n) <==> Changed(w, conns, n) || (n == r.Name() && Differs(w, r))
  {
    hide Differs;
    forall n
      ensures Changed(w, conns + [r], n) <==> Changed(w, conns, n) || (n == r.Name() && Differs(w, r))
    {
      if Changed(w, conns, n) {
        var q :| q in conns && q.Name() == n && Differs(w, q);
        assert q in conns + [r];
      }
      assert r in conns + [r];
    }
  }

  lemma {:induction false} ReloadStep(w: World, w1: World, conns: seq<Conn>, r: Conn)
    requires Loaded(w) && ReloadResult(w, w1, conns)
    ensures ReloadResult(w, if Differs(w, r) then Shutdown(w1, r.Name()) else w1, conns + [r])
  {
    hide Loaded, Shutdown, Changed, Differs;
    ChangedAppend(w, conns, r);
    if Differs(w, r) {
      ShutdownKeeps(w1, r.Name());
      ShutdownEffect(w1, r.Name());
    }
  }

  lemma {:induction false} ShutdownChangedResult(w: World, conns: seq<Conn>)
    requires Loaded(w)
    ensures ReloadResult(w, ShutdownChanged(w, conns), conns)
  {
    if conns != [] {
      var most, r := conns[..|conns| - 1], conns[|conns| - 1];
      assert conns == most + [r];
      assert ShutdownChanged(w, conns) == if Differs(w, r) then Shutdown(ShutdownChanged(w, most), r.Name()) else ShutdownChanged(w, most);
      hide *;
      ShutdownChangedResult(w, most);
      ReloadStep(w, ShutdownChanged(w, most), most, r);
    }
  }

  /** With distinct resolved names, the merged list holds a resolved or kept object per resolved name. */
  lemma {:induction false} MergedNames(w: World, conns: seq<Conn>)
    requires DistinctNames(conns)
    ensures DistinctNames(MergedList(w, conns))
    ensures forall n :: Find(MergedList(w, conns), n).Missing? <==> Find(conns, n).Missing?
  {
    var r := MergedList(w, conns);
    forall n
      ensures Find(r, n).Missing? <==> Find(conns, n).Missing?
    {
      if Find(conns, n).Found? {
        var j :| 0 <= j < |conns| && conns[j] == Find(conns, n).conn;
        assert r[j] in r && r[j].Name() == n;
      }
      if Find(r, n).Found? {
        var j :| 0 <= j < |r| && r[j] == Find(r, n).conn;
        assert conns[j] in conns && conns[j].Name() == n;
      }
    }
  }

  /** A monitored connection whose name was resolved and did not change is in the merged list. */
  lemma {:induction false} UnchangedIsKept(w: World, conns: seq<Conn>, c: Conn)
    requires DistinctNames(w.monitored) && c in w.monitored
    requires Find(conns, c.Name()).Found? && !Changed(w, conns, c.Name())
    ensures c in MergedList(w, conns)
  {
    var q := Find(conns, c.Name()).conn;
    FindDistinct(w.monitored, c);
    var j :| 0 <= j < |conns| && conns[j] == q;
    assert !Differs(w, q);
    assert MergedList(w, conns)[j] == c;
  }

  /** LoadSources leads from the end of an iteration to the state the sweep starts from. */
  lemma {:induction false} LoadSourcesKeeps(w: World, load: Load)
    requires Valid(w) && (load.Resolved? ==> DistinctNames(load.conns))
    ensures Loaded(LoadSources(w, load))
  {
    match load {
      case ReadError =>
      case Paused =>
        PausedKeeps(w);
      case Resolved(conns) =>
        ShutdownChangedResult(w, conns);
        MergedNames(w, conns);
        var w1 := ShutdownChanged(w, conns);
        var w' := LoadSources(w, load);
        forall n ensures WorkerOk(w', n) { ResolvedWorkerOk(w, w1, conns, n); }
        forall c ensures NoLeak(w', c) { ResolvedNoLeak(w, w1, conns, c); }
        forall c ensures Faithful(w', c) { assert Faithful(w1, c); }
    }
  }

  lemma {:induction false} PausedKeeps(w: World)
    requires Valid(w)
    ensures Loaded(w.(monitored := []))
  {
    var w' := w.(monitored := []);
    hide Essence;
    forall n ensures WorkerOk(w', n) { assert WorkerOk(w, n); }
    forall c ensures NoLeak(w', c) { assert NoLeak(w, c); }
    forall c ensures Faithful(w', c) { assert Faithful(w, c); }
  }

  lemma {:induction false} ResolvedWorkerOk(w: World, w1: World, conns: seq<Conn>, n: string)
    requires Valid(w) && ReloadResult(w, w1, conns) && DistinctNames(conns)
    ensures WorkerOk(w1.(monitored := MergedList(w, conns)), n)
  {
    if n in w1.cancelFuncs {
      assert WorkerOk(w1, n) && WorkerOk(w, n);
      var c := w.cancelFuncs[n].conn;
      assert c in w.monitored && !Changed(w, conns, n) && w1.cancelFuncs[n] == w.cancelFuncs[n];
      assert DistinctNames(w.monitored);
      hide ReloadResult, Valid, Loaded, Changed, Find, DistinctNames;
      MergedNames(w, conns);
      if Find(conns, n).Found? {
        UnchangedIsKept(w, conns, c);
      }
    }
  }

  lemma {:induction false} ResolvedNoLeak(w: World, w1: World, conns: seq<Conn>, c: Conn)
    requires Valid(w) && ReloadResult(w, w1, conns) && DistinctNames(conns)
    ensures NoLeak(w1.(monitored := MergedList(w, conns)), c)
  {
    assert NoLeak(w, c) && NoLeak(w1, c);
    if c in w.swept && !c.isProm && PoolOf(w1, c) == Open {
      assert PoolOf(w, c) == Open && c in w.monitored && !Changed(w, conns, c.Name());
      assert DistinctNames(w.monitored);
      hide ReloadResult, Valid, Loaded, Changed, Find, DistinctNames;
      MergedNames(w, conns);
      if Find(conns, c.Name()).Found? {
        UnchangedIsKept(w, conns, c);
      }
    }
  }

  lemma {:induction false} LoadMetricsKeeps(w: World, presets: map<string, Intervals>)
    requires Loaded(w)
    ensures var w' := LoadMetrics(w, presets);
            Loaded(w') && w'.(sources := w.sources) == w
  {
    var w' := LoadMetrics(w, presets);
    hide Install, Essence, Find, DistinctNames;
    forall n ensures WorkerOk(w', n) { assert WorkerOk(w, n); }
    forall c ensures NoLeak(w', c) { assert NoLeak(w, c); }
    forall c ensures Faithful(w', c) {
      assert Faithful(w, c);
      InstallKeepsEssence(presets, c.isProm, SourceOf(w, c), c.config);
    }
  }

  ghost predicate StopResult(w: World, w': World, names: seq<string>) {
    && Loaded(w') && SameLists(w, w') && w'.swept == w.swept
    && (forall n :: n in w'.cancelFuncs <==> n in w.cancelFuncs && n !in names)
    && (forall n :: n in w'.cancelFuncs ==> w'.cancelFuncs[n] == w.cancelFuncs[n])
    && (forall c :: PoolOf(w', c) == PoolOf(w, c) || PoolOf(w', c) == Closed)
  }

  lemma {:induction false} StopStep(w: World, w1: World, names: seq<string>, n: string)
    requires StopResult(w, w1, names)
    ensures StopResult(w, Shutdown(w1, n), names + [n])
  {
    hide Loaded, Shutdown;
    ShutdownKeeps(w1, n);
    ShutdownEffect(w1, n);
  }

  lemma {:induction false} ShutdownAllResult(w: World, names: seq<string>)
    requires Loaded(w)
    ensures StopResult(w, ShutdownAll(w, names), names)
  {
    if names != [] {
      var most, n := names[..|names| - 1], names[|names| - 1];
      assert names == most + [n] && ShutdownAll(w, names) == Shutdown(ShutdownAll(w, most), n);
      hide *;
      ShutdownAllResult(w, most);
      StopStep(w, ShutdownAll(w, most), most, n);
    }
  }

  ghost predicate CloseResult(w: World, w': World, conns: seq<Conn>) {
    && w'.(pools := w.pools) == w
    && (forall c :: PoolOf(w', c) ==
          if c in conns && Find(w.monitored, c.Name()).Missing? && !c.isProm && PoolOf(w, c) == Open then Closed else PoolOf(w, c))
  }

  lemma {:induction false} CloseStep(w: World, w1: World, conns: seq<Conn>, c: Conn)
    requires CloseResult(w, w1, conns)
    ensures CloseResult(w, if Find(w.monitored, c.Name()).Missing? then Close(w1, c) else w1, conns + [c])
  {
    hide Find;
    assert forall d :: PoolOf(Close(w1, c), d) == if d == c && !c.isProm && PoolOf(w1, c) == Open then Closed else PoolOf(w1, d);
    hide Close, PoolOf;
  }

  lemma {:induction false} CloseGoneResult(w: World, conns: seq<Conn>)
    ensures CloseResult(w, CloseGone(w, conns), conns)
  {
    if conns != [] {
      var most, c := conns[..|conns| - 1], conns[|conns| - 1];
      assert conns == most + [c];
      assert CloseGone(w, conns) == if Find(w.monitored, c.Name()).Missing? then Close(CloseGone(w, most), c) else CloseGone(w, most);
      hide *;
      CloseGoneResult(w, most);
      CloseStep(w, CloseGone(w, most), most, c);
    }
  }

  /** Clean-up ends the iteration in a valid state and stops exactly the workers that must stop. */
  lemma {:induction false} CleanupKeeps(w: World, ctxDone: bool, names: seq<string>)
    requires Loaded(w) && forall n :: n in names <==> MustStop(w, ctxDone, n)
    ensures var w' := Cleanup(w, names);
            && Valid(w') && w'.monitored == w.monitored
            && (forall n :: n in w'.cancelFuncs <==> n in w.cancelFuncs && !MustStop(w, ctxDone, n))
            && (forall n :: n in w'.cancelFuncs ==> w'.cancelFuncs[n] == w.cancelFuncs[n])
            && (forall c :: PoolOf(w, c) == Closed ==> PoolOf(w', c) == Closed)
  {
    ShutdownAllResult(w, names);
    var w1 := ShutdownAll(w, names);
    CloseGoneResult(w1, w.previous);
    var w' := Cleanup(w, names);
    hide ShutdownAll, CloseGone, Find, DistinctNames, Essence;
    forall n ensures WorkerOk(w', n) && (n in w'.cancelFuncs ==> w'.cancelFuncs[n].conn in w'.monitored) {
      assert WorkerOk(w1, n) && (MustStop(w, ctxDone, n) <==> n in names);
    }
    forall c ensures NoLeak(w', c) { assert NoLeak(w1, c); }
    forall c ensures Faithful(w', c) { assert Faithful(w1, c); }
  }

  /** Every iteration keeps the promises. */
  lemma {:induction false} IterateKeeps(w: World, r: Round)
    requires Valid(w) && Possible(w, r)
    ensures Valid(Iterate(w, r))
    ensures Loaded(AfterLoad(w, r)) && SweepResult(AfterLoad(w, r), AfterSweep(w, r), r.order, r.outcomes)
  {
    hide Valid, Loaded, SweepResult, MustStop, LoadSources, LoadMetrics, Sweep, Cleanup, DistinctNames;
    LoadSourcesKeeps(w, r.load);
    LoadMetricsKeeps(LoadSources(w, r.load), r.presets);
    SweepKeeps(AfterLoad(w, r), r.order, r.outcomes);
    SweepLoaded(AfterLoad(w, r), AfterSweep(w, r), r.order, r.outcomes);
    CleanupKeeps(AfterSweep(w, r), r.ctxDone, r.names);
  }

  lemma {:induction false} SweepLoaded(w: World, w': World, order: seq<Conn>, outcomes: string -> Outcome)
    requires SweepResult(w, w', order, outcomes)
    ensures Loaded(w') && SameLists(w, w')
  {
  }

  const Fresh := World([], [], map[], map[], map[], 0, {}, {})

  /** The state after the first rounds of a run. */
  function After(rounds: seq<Round>): World {
    if rounds == [] then Fresh else Iterate(After(rounds[..|rounds| - 1]), rounds[|rounds| - 1])
  }

  ghost predicate PossibleRun(rounds: seq<Round>) {
    forall i :: 0 <= i < |rounds| ==> Possible(After(rounds[..i]), rounds[i])
  }

  lemma {:induction false} AfterStep(rounds: seq<Round>)
    requires rounds != []
    ensures After(rounds) == Iterate(After(rounds[..|rounds| - 1]), rounds[|rounds| - 1])
  {
    hide Iterate;
  }

  lemma {:induction false} RunPrefix(rounds: seq<Round>)
    requires PossibleRun(rounds) && rounds != []
    ensures PossibleRun(rounds[..|rounds| - 1])
    ensures Possible(After(rounds[..|rounds| - 1]), rounds[|rounds| - 1])
  {
    hide Possible, After;
    var most := rounds[..|rounds| - 1];
    assert Possible(After(rounds[..|most|]), rounds[|most|]);
    forall i | 0 <= i < |most| ensures Possible(After(most[..i]), most[i]) {
      assert most[..i] == rounds[..i];
      assert Possible(After(rounds[..i]), rounds[i]);
    }
  }

  /** After every iteration of every run, whatever was reloaded, failed, filtered or paused:
      workers run on the monitored connection objects, these are open, and nothing leaks. */
  lemma {:induction false} EveryIterationValid(rounds: seq<Round>)
    requires PossibleRun(rounds)
    ensures Valid(After(rounds))
  {
    if rounds == [] {
      FreshValid();
    } else {
      var most, r := rounds[..|rounds| - 1], rounds[|rounds| - 1];
      hide *;
      AfterStep(rounds);
      RunPrefix(rounds);
      EveryIterationValid(most);
      IterateKeeps(After(most), r);
    }
  }

  lemma {:induction false} FreshValid()
    ensures Valid(Fresh)
  {
    forall n ensures WorkerOk(Fresh, n) {}
    forall c ensures NoLeak(Fresh, c) && Faithful(Fresh, c) {}
  }

  /** What Valid says, spelled out: the two promises about workers and connections. */
  lemma {:induction false} ValidMeans(w: World)
    requires Valid(w)
    ensures forall n :: n in w.cancelFuncs ==>
              var k := w.cancelFuncs[n];
              && Find(w.monitored, n) == Found(k.conn) && PoolOf(w, k.conn) == Open && k !in w.cancelled
    ensures forall c :: c in w.swept && !c.isProm && c !in w.monitored ==> PoolOf(w, c) != Open
  {
    forall n | n in w.cancelFuncs
      ensures var k := w.cancelFuncs[n];
              Find(w.monitored, n) == Found(k.conn) && PoolOf(w, k.conn) == Open && k !in w.cancelled
    {
      assert WorkerOk(w, n);
      FindDistinct(w.monitored, w.cancelFuncs[n].conn);
    }
    forall c | c in w.swept && !c.isProm && c !in w.monitored
      ensures PoolOf(w, c) != Open
    {
      assert NoLeak(w, c);
    }
  }

  /* ---- when a worker survives an iteration ---- */

  /** After the reload the source of `c` is still configured, and configured the same. */
  ghost predicate StaysConfigured(load: Load, c: Conn) {
    match load
    case Paused => false
    case ReadError => true
    case Resolved(conns) => exists r :: r in conns && r.Name() == c.Name() && Equal(c.config, r.config)
  }

  lemma {:induction false} DiffersByConfig(w: World, c: Conn, r: Conn)
    requires Loaded(w) && c in w.monitored && r.Name() == c.Name()
    ensures Differs(w, r) <==> !Equal(c.config, r.config)
    ensures Merged(w, r) == if Equal(c.config, r.config) then c else r
  {
    FindDistinct(w.monitored, c);
    assert Faithful(w, c) && Faithful(w, r);
    EqualIsEquivalence(SourceOf(w, c), SourceOf(w, r), r.config);
    EqualIsEquivalence(c.config, r.config, r.config);
  }

  /** A monitored object stays monitored by a reload exactly when its source stays configured. */
  lemma {:induction false} StaysMonitored(w: World, load: Load, c: Conn)
    requires Valid(w) && c in w.monitored && (load.Resolved? ==> DistinctNames(load.conns))
    ensures c in LoadSources(w, load).monitored <==> StaysConfigured(load, c)
    ensures load.Resolved? && StaysConfigured(load, c) ==> !Changed(w, load.conns, c.Name())
  {
    if load.Resolved? {
      var conns := load.conns;
      var list := MergedList(w, conns);
      if StaysConfigured(load, c) {
        var r :| r in conns && r.Name() == c.Name() && Equal(c.config, r.config);
        DiffersByConfig(w, c, r);
        var j :| 0 <= j < |conns| && conns[j] == r;
        assert list[j] == c;
        forall q | q in conns && q.Name() == c.Name() ensures !Differs(w, q) {
          FindDistinct(conns, q);
          FindDistinct(conns, r);
        }
      }
      if c in list {
        var j :| 0 <= j < |list| && list[j] == c;
        DiffersByConfig(w, c, conns[j]);
        EqualIsEquivalence(c.config, c.config, c.config);
        assert conns[j] in conns && Equal(c.config, conns[j].config);
      }
    }
  }

  /** What the reload does to a registered worker. */
  lemma {:induction false} ReloadWorker(w: World, r: Round, n: string)
    requires Valid(w) && Possible(w, r) && n in w.cancelFuncs
    ensures var (k, w1) := (w.cancelFuncs[n], AfterLoad(w, r));
            && (k.conn in w1.monitored <==> StaysConfigured(r.load, k.conn))
            && (StaysConfigured(r.load, k.conn) ==> n in w1.cancelFuncs && w1.cancelFuncs[n] == k)
  {
    var k := w.cancelFuncs[n];
    assert WorkerOk(w, n);
    StaysMonitored(w, r.load, k.conn);
    LoadSourcesKeeps(w, r.load);
    LoadMetricsKeeps(LoadSources(w, r.load), r.presets);
    if r.load.Resolved? {
      ShutdownChangedResult(w, r.load.conns);
    }
  }

  /** A worker survives an iteration exactly when the context lives on, its source is still configured the same,
      and the filter does not reject it: nothing else ever stops or restarts it. */
  lemma {:induction false} WorkerSurvivesIff(w: World, r: Round, n: string)
    requires Valid(w) && Possible(w, r) && n in w.cancelFuncs
    ensures var (k, w') := (w.cancelFuncs[n], Iterate(w, r));
            (n in w'.cancelFuncs && w'.cancelFuncs[n] == k)
            <==> !r.ctxDone && StaysConfigured(r.load, k.conn) && !Rejects(k.conn, r.outcomes(n))
  {
    var k := w.cancelFuncs[n];
    assert WorkerOk(w, n);
    ReloadWorker(w, r, n);
    IterateKeeps(w, r);
    var w1, w2, w' := AfterLoad(w, r), AfterSweep(w, r), Iterate(w, r);
    CleanupKeeps(w2, r.ctxDone, r.names);
    assert k.conn in w1.monitored ==> k.conn in r.order;
    hide AfterLoad, AfterSweep, Iterate, Possible, StaysConfigured, Rejects;
    if k.conn in w1.monitored {
      FindDistinct(w1.monitored, k.conn);
      assert MustStop(w2, r.ctxDone, n) <==> n in w2.cancelFuncs && r.ctxDone;
    } else if n in w'.cancelFuncs {
      assert w'.cancelFuncs[n].conn in w1.monitored;
    }
  }

  /** Nothing in this round gives a reason to stop worker `k` of source `n`. */
  ghost predicate Undisturbed(r: Round, k: Worker, n: string) {
    !r.ctxDone && StaysConfigured(r.load, k.conn) && !Rejects(k.conn, r.outcomes(n))
  }

  /** Through any number of reloads: as long as no round ends the context, changes or drops the source, or filters it,
      the same worker keeps running on the same connection. */
  lemma {:induction false} NeverRestarted(rounds: seq<Round>, i: nat, n: string, k: Worker)
    requires PossibleRun(rounds) && i <= |rounds|
    requires n in After(rounds[..i]).cancelFuncs && After(rounds[..i]).cancelFuncs[n] == k
    requires forall j :: i <= j < |rounds| ==> Undisturbed(rounds[j], k, n)
    ensures n in After(rounds).cancelFuncs && After(rounds).cancelFuncs[n] == k
  {
    hide *;
    if i == |rounds| {
      assert rounds[..i] == rounds;
    } else {
      var most, r := rounds[..|rounds| - 1], rounds[|rounds| - 1];
      AfterStep(rounds);
      assert most[..i] == rounds[..i];
      RunPrefix(rounds);
      NeverRestarted(most, i, n, k);
      EveryIterationValid(most);
      SurvivesUndisturbed(After(most), r, n);
    }
  }

  lemma {:induction false} SurvivesUndisturbed(w: World, r: Round, n: string)
    requires Valid(w) && Possible(w, r) && n in w.cancelFuncs && Undisturbed(r, w.cancelFuncs[n], n)
    ensures n in Iterate(w, r).cancelFuncs && Iterate(w, r).cancelFuncs[n] == w.cancelFuncs[n]
  {
    hide Valid, Possible, Iterate, StaysConfigured, Rejects;
    WorkerSurvivesIff(w, r, n);
  }
}
