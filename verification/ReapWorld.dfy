/** What one iteration of the main loop does to sources, connections and workers. */
module ReapWorld {
  import opened SourceConfig

  datatype Pool = NoPool | Open | Closed

  /** A connection object; `id` is its identity, so two objects of one configuration differ. */
  datatype Conn = Conn(id: nat, isProm: bool, config: Source) {
    function Name(): string { config.name }
  }

  /** A launched source reaper and the connection object it was built on. */
  datatype Worker = Worker(id: nat, conn: Conn)

  /** The loop's state, and what has happened so far: connections ever swept, workers ever cancelled. */
  datatype World = World(
    monitored: seq<Conn>,
    previous: seq<Conn>,
    cancelFuncs: map<string, Worker>,
    pools: map<Conn, Pool>,
    sources: map<Conn, Source>,
    launched: nat,
    swept: set<Conn>,
    cancelled: set<Worker>
  )

  function PoolOf(w: World, c: Conn): Pool {
    if c in w.pools then w.pools[c] else NoPool
  }

  /** GetSource: the configuration, with the intervals that were installed into it. */
  function SourceOf(w: World, c: Conn): Source {
    if c in w.sources then w.sources[c] else c.config
  }

  datatype Found = Missing | Found(conn: Conn)

  /** GetMonitoredDatabase: the first connection of that name. */
  function Find(conns: seq<Conn>, name: string): (r: Found)
    ensures r.Found? ==> r.conn in conns && r.conn.Name() == name
    ensures r.Missing? ==> forall c :: c in conns ==> c.Name() != name
  {
    if conns == [] then Missing
    else if conns[0].Name() == name then Found(conns[0])
    else Find(conns[1..], name)
  }

  /** Of several connections with the name, the first one is found. */
  lemma {:induction false} FindIsFirst(conns: seq<Conn>, name: string)
    ensures Find(conns, name).Found? <==> exists i :: 0 <= i < |conns| && FirstNamed(conns, name, i)
    ensures forall i :: 0 <= i < |conns| && FirstNamed(conns, name, i) ==> Find(conns, name) == Found(conns[i])
  {
    if conns != [] {
      FindIsFirst(conns[1..], name);
      if conns[0].Name() == name {
        assert FirstNamed(conns, name, 0);
      } else {
        forall i | 0 <= i < |conns| - 1 ensures FirstNamed(conns[1..], name, i) <==> FirstNamed(conns, name, i + 1) {
          if FirstNamed(conns[1..], name, i) {
            forall j | 0 <= j < i + 1 ensures conns[j].Name() != name {
              assert j > 0 ==> conns[j] == conns[1..][j - 1];
            }
          }
        }
        forall i | 0 <= i < |conns| && FirstNamed(conns, name, i) ensures Find(conns, name) == Found(conns[i]) {
          assert i > 0 && FirstNamed(conns[1..], name, i - 1);
        }
      }
    }
  }

  ghost predicate FirstNamed(conns: seq<Conn>, name: string, i: int) {
    0 <= i < |conns| && conns[i].Name() == name && forall j :: 0 <= j < i ==> conns[j].Name() != name
  }

  ghost predicate DistinctNames(conns: seq<Conn>) {
    forall i, j :: 0 <= i < j < |conns| ==> conns[i].Name() != conns[j].Name()
  }

  lemma {:induction false} FindDistinct(conns: seq<Conn>, c: Conn)
    requires DistinctNames(conns) && c in conns
    ensures Find(conns, c.Name()) == Found(c)
  {
    var d := Find(conns, c.Name()).conn;
    var i :| 0 <= i < |conns| && conns[i] == c;
    var j :| 0 <= j < |conns| && conns[j] == d;
  }

  /* ---- the steps ---- */

  /** Close: a database pool is closed, a Prometheus client has nothing to close. */
  function Close(w: World, c: Conn): World {
    if !c.isProm && PoolOf(w, c) == Open then w.(pools := w.pools[c := Closed]) else w
  }

  /** ShutdownWorker. */
  function Shutdown(w: World, name: string): World {
    var w1 := if name in w.cancelFuncs
              then w.(cancelFuncs := w.cancelFuncs - {name}, cancelled := w.cancelled + {w.cancelFuncs[name]})
              else w;
    match Find(w.monitored, name)
    case Missing => w1
    case Found(c) => Close(w1, c)
  }

  /** StartWorker. */
  function Start(w: World, c: Conn): World {
    if c.Name() in w.cancelFuncs then w
    else w.(cancelFuncs := w.cancelFuncs[c.Name() := Worker(w.launched, c)], launched := w.launched + 1)
  }

  /** How one source fares in a sweep. */
  datatype Outcome = Outcome(opens: bool, pings: bool, infoFails: bool, filtered: bool)

  /** Connect: opens a pool if there never was one. */
  function Connect(w: World, c: Conn, o: Outcome): World {
    if PoolOf(w, c) == NoPool && o.opens then w.(pools := w.pools[c := Open]) else w
  }

  /** One goroutine of the sweep; pinging a closed pool fails. */
  function SweepOne(w: World, c: Conn, o: Outcome): World {
    var w1 := Connect(w, c, o).(swept := w.swept + {c});
    if !o.pings || PoolOf(w1, c) != Open then w1
    else if !c.isProm && o.infoFails then w1
    else if !c.isProm && o.filtered then Shutdown(w1, c.Name())
    else Start(w1, c)
  }

  /** The sweep, in the order the goroutines happened to run. */
  function Sweep(w: World, order: seq<Conn>, outcomes: string -> Outcome): World {
    if order == [] then w
    else
      var c := order[|order| - 1];
      SweepOne(Sweep(w, order[..|order| - 1], outcomes), c, outcomes(c.Name()))
  }

  /** What a reload brings: nothing (pause file), an error (the old list stays), or resolved connections. */
  datatype Load = Paused | ReadError | Resolved(conns: seq<Conn>)

  predicate Differs(w: World, r: Conn) {
    var md := Find(w.monitored, r.Name());
    md.Found? && !Equal(SourceOf(w, md.conn), SourceOf(w, r))
  }

  /** An equal source keeps its connection object; otherwise the resolved one is taken. */
  function Merged(w: World, r: Conn): (c: Conn)
    ensures c.Name() == r.Name()
  {
    var md := Find(w.monitored, r.Name());
    if md.Found? && Equal(SourceOf(w, md.conn), SourceOf(w, r)) then md.conn else r
  }

  function MergedList(w: World, conns: seq<Conn>): (r: seq<Conn>)
    ensures |r| == |conns| && forall j :: 0 <= j < |r| ==> r[j] == Merged(w, conns[j])
  {
    seq(|conns|, j requires 0 <= j < |conns| => Merged(w, conns[j]))
  }

  /** The shutdowns of the reload loop: one for each changed source. */
  function ShutdownChanged(w: World, conns: seq<Conn>): World {
    if conns == [] then w
    else
      var (w1, r) := (ShutdownChanged(w, conns[..|conns| - 1]), conns[|conns| - 1]);
      if Differs(w, r) then Shutdown(w1, r.Name()) else w1
  }

  /** LoadSources. */
  function LoadSources(w: World, load: Load): World {
    match load
    case Paused => w.(monitored := [])
    case ReadError => w
    case Resolved(conns) => ShutdownChanged(w, conns).(monitored := MergedList(w, conns))
  }

  /** LoadMetrics, for the sources: presets become intervals. */
  function LoadMetrics(w: World, presets: map<string, Intervals>): World {
    w.(sources := w.sources + map c | c in w.monitored :: Install(presets, c.isProm, SourceOf(w, c)))
  }

  /** Shut down the named workers one after the other. */
  function ShutdownAll(w: World, names: seq<string>): World {
    if names == [] then w else Shutdown(ShutdownAll(w, names[..|names| - 1]), names[|names| - 1])
  }

  /** Close what was monitored in the previous iteration under a name that is gone. */
  function CloseGone(w: World, conns: seq<Conn>): World {
    if conns == [] then w
    else
      var (w1, c) := (CloseGone(w, conns[..|conns| - 1]), conns[|conns| - 1]);
      if Find(w.monitored, c.Name()).Missing? then Close(w1, c) else w1
  }

  /** CleanupRemovedWorkers, shutting down `names`. */
  function Cleanup(w: World, names: seq<string>): World {
    CloseGone(ShutdownAll(w, names), w.previous).(previous := w.monitored)
  }

  /** The workers that clean-up must stop: all of them once the context has ended, else those of vanished names. */
  predicate MustStop(w: World, ctxDone: bool, n: string) {
    n in w.cancelFuncs && (ctxDone || Find(w.monitored, n).Missing?)
  }

  ghost predicate Enumerates<T(!new)>(s: seq<T>, p: T -> bool) {
    (forall x :: x in s <==> p(x)) && forall i, j :: 0 <= i < j < |s| ==> s[i] != s[j]
  }

  /** Everything an iteration depends on: the reload, the presets, each source's fate, whether the context ended,
      and the order in which goroutines and map iteration happen to run. */
  datatype Round = Round(
    load: Load,
    presets: map<string, Intervals>,
    outcomes: string -> Outcome,
    ctxDone: bool,
    order: seq<Conn>,
    names: seq<string>
  )

  function AfterLoad(w: World, r: Round): World {
    LoadMetrics(LoadSources(w, r.load), r.presets)
  }

  function AfterSweep(w: World, r: Round): World {
    Sweep(AfterLoad(w, r), r.order, r.outcomes)
  }

  /** One iteration of the main loop. */
  function Iterate(w: World, r: Round): World {
    Cleanup(AfterSweep(w, r), r.names)
  }

  /** The round is one the loop can take: resolved names are distinct, every monitored source is swept once,
      and exactly the workers that must stop are stopped. */
  ghost predicate Possible(w: World, r: Round) {
    && (r.load.Resolved? ==> DistinctNames(r.load.conns))
    && Enumerates(r.order, c => c in AfterLoad(w, r).monitored)
    && Enumerates(r.names, n => MustStop(AfterSweep(w, r), r.ctxDone, n))
  }

  /* ---- the invariant ---- */

  /** Worker `k`, registered as `n`, is not cancelled and has an open connection of that name:
      the monitored object, unless the name is no longer monitored. */
  predicate WorkerOk(w: World, n: string) {
    n in w.cancelFuncs ==>
      var k := w.cancelFuncs[n];
      && k !in w.cancelled && k.id < w.launched
      && k.conn.Name() == n && PoolOf(w, k.conn) == Open
      && (k.conn in w.monitored || Find(w.monitored, n).Missing?)
  }

  /** A swept connection that is open is monitored, or waits for clean-up because its name is gone. */
  predicate NoLeak(w: World, c: Conn) {
    c in w.swept && !c.isProm && PoolOf(w, c) == Open ==>
      c in w.monitored || (c in w.previous && Find(w.monitored, c.Name()).Missing?)
  }

  /** Installed intervals never matter for what a source is equal to. */
  predicate Faithful(w: World, c: Conn) {
    Essence(SourceOf(w, c)) == Essence(c.config)
  }

  /** Between reload and clean-up. */
  ghost predicate Loaded(w: World) {
    && DistinctNames(w.monitored)
    && (forall n :: WorkerOk(w, n))
    && (forall c :: NoLeak(w, c))
    && (forall c :: Faithful(w, c))
    && (forall k :: k in w.cancelled ==> k.id < w.launched)
  }

  /** At the end of an iteration: each registered worker is live and runs on the very object monitored under its
      name, whose pool is open; nothing that was swept and is no longer monitored is open. */
  ghost predicate Valid(w: World) {
    && Loaded(w) && w.previous == w.monitored
    && (forall n :: n in w.cancelFuncs ==> w.cancelFuncs[n].conn in w.monitored)
  }
}
