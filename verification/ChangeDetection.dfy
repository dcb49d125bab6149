/** The detection runs themselves: incremental comparison with the remembered state of a source. */
module ChangeDetection {
  import opened ChangeDiff
  import opened Strings

  /** A kind of object: the state it is remembered under and how its identifiers are put together. */
  datatype Category = Category(key: string, sep: string, arity: nat)

  const IDENT_SEPARATOR := "¤¤¤"
  const SPROCS := Category("sproc_hashes", IDENT_SEPARATOR, 2)
  const TABLES := Category("table_hashes", "", 1)
  const INDEXES := Category("index_hashes", "", 1)
  const PRIVILEGES := Category("object_privileges", "#:#", 4)

  ghost predicate Joined(cat: Category, ident: string) {
    cat.arity == 1 || (cat.sep != "" && cat.arity > 0 && exists ps: seq<string> :: |ps| == cat.arity && ident == Join(ps, cat.sep))
  }

  ghost predicate AllJoined(cat: Category, idents: set<string>) {
    forall n :: n in idents ==> Joined(cat, n)
  }

  /** The object a drop or revoke event names. */
  function PartsOf(cat: Category, ident: string): (ps: seq<string>)
    requires cat.arity == 1 || (cat.sep != "" && |Split(ident, cat.sep)| >= cat.arity)
    ensures |ps| == cat.arity
  {
    if cat.arity == 1 then [ident] else Split(ident, cat.sep)[..cat.arity]
  }

  /** Every remembered identifier has as many pieces as the event needs, whatever the names contain. */
  lemma {:induction false} JoinedHasParts(cat: Category, ident: string)
    requires Joined(cat, ident)
    ensures cat.arity == 1 || (cat.sep != "" && |Split(ident, cat.sep)| >= cat.arity)
  {
    if cat.arity != 1 {
      var ps: seq<string> :| |ps| == cat.arity && ident == Join(ps, cat.sep);
      SplitAtLeast(ps, cat.sep);
    }
  }

  /** The event names exactly the object that vanished if and only if its parts are separable. */
  lemma {:induction false} NamesTheObject(cat: Category, ps: seq<string>)
    requires cat.sep != "" && cat.arity > 1 && |ps| == cat.arity
    ensures |Split(Join(ps, cat.sep), cat.sep)| >= cat.arity
    ensures PartsOf(cat, Join(ps, cat.sep)) == ps <==> Separable(ps, cat.sep)
  {
    hide Split, Join, Separable;
    FirstPiecesIff(ps, cat.sep);
  }

  /** Different objects are remembered under different identifiers. */
  lemma {:induction false} JoinInjective(ps: seq<string>, qs: seq<string>, sep: string)
    requires sep != "" && Separable(ps, sep) && Separable(qs, sep)
    ensures Join(ps, sep) == Join(qs, sep) ==> ps == qs
  {
    assert ps != [] && qs != [];
    hide *;
    SplitJoinIff(ps, sep);
    SplitJoinIff(qs, sep);
  }

  /** Whether the query could be made and what it returned. */
  datatype Reply = Failed | Rows(rows: seq<Row>)

  ghost predicate DropsNamed(cat: Category, es: seq<Event>) {
    forall i :: 0 <= i < |es| && es[i].Drop? ==> Joined(cat, es[i].ident) && Named(cat, es[i])
  }

  ghost predicate Named(cat: Category, e: Event) {
    e.Drop? && (cat.arity == 1 || (cat.sep != "" && |Split(e.ident, cat.sep)| >= cat.arity)) && e.parts == PartsOf(cat, e.ident)
  }

  /** The objects reported as gone. */
  function DropSet(es: seq<Event>): set<string> {
    set i | 0 <= i < |es| && es[i].Drop? :: es[i].ident
  }

  lemma {:induction false} DropSetAppend(es: seq<Event>, e: Event)
    ensures DropSet(es + [e]) == if e.Drop? then DropSet(es) + {e.ident} else DropSet(es)
  {
    forall n ensures n in DropSet(es + [e]) <==> n in DropSet(es) || (e.Drop? && n == e.ident) {
      if n in DropSet(es) {
        var i :| 0 <= i < |es| && es[i].Drop? && es[i].ident == n;
        assert (es + [e])[i].ident == n;
      }
      assert (es + [e])[|es|] == e;
    }
  }

  /** The events and counts of one phase, replayed on the remembered hashes. */
  ghost predicate Reports(m: Hashes, es: seq<Event>, c: Counts, m': Hashes) {
    Replay(m, es) == m' && AllHappen(m, es) && Tally(es) == c
  }

  lemma {:induction false} ReportsAppend(m: Hashes, es: seq<Event>, c: Counts, m': Hashes, e: Event)
    requires Reports(m, es, c, m') && Happens(m', e)
    ensures Reports(m, es + [e],
      Counts(c.created + if e.Create? then 1 else 0, c.altered + if e.Alter? then 1 else 0, c.dropped + if e.Drop? then 1 else 0),
      Apply(m', e))
  {
    EventAppend(m, es, e);
  }

  /** Remembered hashes, events and counts while a run goes on. */
  datatype Progress = Progress(hashes: Hashes, events: seq<Event>, counts: Counts)

  /** What the loop does with one row. */
  function Upserted(firstRun: bool, p: Progress, r: Row): Progress {
    if r.ident in p.hashes then
      if p.hashes[r.ident] == r.hash then p
      else Progress(p.hashes[r.ident := r.hash], p.events + [Alter(r.ident, r.hash)], p.counts.(altered := p.counts.altered + 1))
    else if firstRun then p.(hashes := p.hashes[r.ident := r.hash])
    else Progress(p.hashes[r.ident := r.hash], p.events + [Create(r.ident, r.hash)], p.counts.(created := p.counts.created + 1))
  }

  ghost predicate NoDrops(es: seq<Event>) {
    forall i :: 0 <= i < |es| ==> !es[i].Drop?
  }

  /** The loop over the rows has compared `rows` with what was remembered in `m`. */
  ghost predicate Compared(m: Hashes, rows: seq<Row>, firstRun: bool, p: Progress) {
    && p.hashes == Upsert(m, rows)
    && NoDrops(p.events)
    && (!firstRun ==> Reports(m, p.events, p.counts, p.hashes))
    && p.counts.created == (if firstRun then 0 else |Idents(rows) - m.Keys|)
    && (Distinct(rows) ==> p.counts.altered == |Changed(m, rows)|)
    && p.counts.dropped == 0 && |p.events| == p.counts.created + p.counts.altered
  }

  lemma {:induction false} DifferenceGrows(a: set<string>, b: set<string>, x: string)
    ensures |(a + {x}) - b| == |a - b| + if x in a || x in b then 0 else 1
  {
    if x in a || x in b {
      assert (a + {x}) - b == a - b;
    } else {
      assert (a + {x}) - b == (a - b) + {x};
    }
  }

  lemma {:induction false} DistinctPrefix(rows: seq<Row>, i: nat)
    requires i <= |rows| && Distinct(rows)
    ensures Distinct(rows[..i])
  {
  }

  lemma {:induction false} UpsertedHashes(m: Hashes, rows: seq<Row>, i: nat, firstRun: bool, p: Progress)
    requires i < |rows| && p.hashes == Upsert(m, rows[..i])
    ensures Upserted(firstRun, p, rows[i]).hashes == Upsert(m, rows[..i + 1])
  {
    RowAppend(m, rows, i);
    hide Upsert, Idents;
  }

  lemma {:induction false} UpsertedReports(m: Hashes, firstRun: bool, p: Progress, r: Row)
    requires Reports(m, p.events, p.counts, p.hashes)
    ensures !firstRun ==> var p' := Upserted(firstRun, p, r); Reports(m, p'.events, p'.counts, p'.hashes)
  {
    hide Reports;
    if r.ident !in p.hashes {
      ReportsAppend(m, p.events, p.counts, p.hashes, Create(r.ident, r.hash));
    } else if p.hashes[r.ident] != r.hash {
      ReportsAppend(m, p.events, p.counts, p.hashes, Alter(r.ident, r.hash));
    }
  }

  lemma {:induction false} CreatedCount(m: Hashes, rows: seq<Row>, i: nat)
    requires i < |rows|
    ensures |Idents(rows[..i + 1]) - m.Keys| == |Idents(rows[..i]) - m.Keys| + if rows[i].ident in Upsert(m, rows[..i]) then 0 else 1
  {
    RowAppend(m, rows, i);
    UpsertKeys(m, rows[..i]);
    hide Upsert, Idents;
    DifferenceGrows(Idents(rows[..i]), m.Keys, rows[i].ident);
  }

  lemma {:induction false} AlteredCount(m: Hashes, rows: seq<Row>, i: nat)
    requires i < |rows| && Distinct(rows)
    ensures var r, up := rows[i], Upsert(m, rows[..i]);
      |Changed(m, rows[..i + 1])| == |Changed(m, rows[..i])| + if r.ident in up && up[r.ident] != r.hash then 1 else 0
  {
    UpsertValues(m, rows[..i], rows[i].ident);
    ChangedAppend(m, rows, i);
    hide Upsert, Idents, Changed, Distinct;
  }

  lemma {:induction false} AlteredCountPrefix(m: Hashes, rows: seq<Row>, i: nat)
    requires i < |rows| && Distinct(rows[..i + 1])
    ensures Distinct(rows[..i])
    ensures var r, up := rows[i], Upsert(m, rows[..i]);
      |Changed(m, rows[..i + 1])| == |Changed(m, rows[..i])| + if r.ident in up && up[r.ident] != r.hash then 1 else 0
  {
    var part := rows[..i + 1];
    assert part[..i] == rows[..i] && part[..i + 1] == part;
    hide Upsert, Changed, Distinct;
    DistinctPrefix(part, i);
    AlteredCount(m, part, i);
  }

  lemma {:induction false} UpsertedCounts(firstRun: bool, p: Progress, r: Row)
    requires NoDrops(p.events)
    ensures var p' := Upserted(firstRun, p, r);
      && NoDrops(p'.events)
      && p'.counts.created == p.counts.created + (if r.ident !in p.hashes && !firstRun then 1 else 0)
      && p'.counts.altered == p.counts.altered + (if r.ident in p.hashes && p.hashes[r.ident] != r.hash then 1 else 0)
      && p'.counts.dropped == p.counts.dropped
      && |p'.events| - |p.events| == p'.counts.created - p.counts.created + p'.counts.altered - p.counts.altered
  {
  }

  lemma {:induction false} ComparedStep(m: Hashes, rows: seq<Row>, i: nat, firstRun: bool, p: Progress)
    requires i < |rows| && Compared(m, rows[..i], firstRun, p)
    ensures Compared(m, rows[..i + 1], firstRun, Upserted(firstRun, p, rows[i]))
  {
    hide Upsert, Idents, Changed, Distinct, Reports, NoDrops, Upserted;
    UpsertedHashes(m, rows, i, firstRun, p);
    if !firstRun {
      UpsertedReports(m, firstRun, p, rows[i]);
    }
    CreatedCount(m, rows, i);
    UpsertedCounts(firstRun, p, rows[i]);
    if Distinct(rows[..i + 1]) {
      AlteredCountPrefix(m, rows, i);
    }
  }

  lemma {:induction false} ComparedInit(m: Hashes, rows: seq<Row>, firstRun: bool)
    ensures Compared(m, rows[..0], firstRun, Progress(m, [], Counts(0, 0, 0)))
  {
    assert Idents(rows[..0]) == {} && Changed(m, rows[..0]) == {};
  }

  /** The loop over the rows: new and changed objects. */
  method UpsertRows(m: Hashes, rows: seq<Row>, firstRun: bool) returns (p: Progress)
    ensures Compared(m, rows, firstRun, p)
  {
    hide Compared;
    var hashes, events, created, altered := m, [], 0, 0;
    ComparedInit(m, rows, firstRun);
    for i := 0 to |rows|
      invariant Compared(m, rows[..i], firstRun, Progress(hashes, events, Counts(created, altered, 0)))
    {
      var r := rows[i];
      ghost var before := Progress(hashes, events, Counts(created, altered, 0));
      ComparedStep(m, rows, i, firstRun, before);
      if r.ident in hashes {
        if hashes[r.ident] != r.hash {
          events := events + [Alter(r.ident, r.hash)];
          hashes := hashes[r.ident := r.hash];
          altered := altered + 1;
        }
      } else {
        if !firstRun {
          events := events + [Create(r.ident, r.hash)];
          created := created + 1;
        }
        hashes := hashes[r.ident := r.hash];
      }
    }
    assert rows[..|rows|] == rows;
    p := Progress(hashes, events, Counts(created, altered, 0));
  }

  /** `gone` has been taken out of the hashes `up` and reported. */
  ghost predicate Removed(cat: Category, m: Hashes, start: Progress, gone: set<string>, p: Progress) {
    && p.hashes == start.hashes - gone
    && Reports(m, p.events, p.counts, p.hashes)
    && DropsNamed(cat, p.events)
    && DropSet(p.events) == DropSet(start.events) + gone
    && p.counts == start.counts.(dropped := start.counts.dropped + |gone|)
  }

  function Dropping(cat: Category, p: Progress, n: string): Progress
    requires cat.arity == 1 || (cat.sep != "" && |Split(n, cat.sep)| >= cat.arity)
  {
    Progress(p.hashes - {n}, p.events + [Drop(n, PartsOf(cat, n))], p.counts.(dropped := p.counts.dropped + 1))
  }

  lemma {:induction false} OneMoreGone(hashes: Hashes, dropped: set<string>, gone: set<string>, n: string)
    requires n in hashes && n !in gone
    ensures (hashes - gone) - {n} == hashes - (gone + {n}) && n in hashes - gone
    ensures (dropped + gone) + {n} == dropped + (gone + {n}) && |gone + {n}| == |gone| + 1
  {
  }

  lemma {:induction false} NamedDrop(cat: Category, n: string)
    requires cat.arity == 1 || (cat.sep != "" && |Split(n, cat.sep)| >= cat.arity)
    ensures Named(cat, Drop(n, PartsOf(cat, n)))
  {
  }

  lemma {:induction false} RemovedStep(cat: Category, m: Hashes, start: Progress, gone: set<string>, p: Progress, n: string)
    requires Removed(cat, m, start, gone, p) && n in start.hashes && n !in gone && Joined(cat, n)
    ensures cat.arity == 1 || (cat.sep != "" && |Split(n, cat.sep)| >= cat.arity)
    ensures Removed(cat, m, start, gone + {n}, Dropping(cat, p, n))
  {
    hide Reports, DropsNamed, Joined, PartsOf, Split, Named, DropSet;
    JoinedHasParts(cat, n);
    var e := Drop(n, PartsOf(cat, n));
    NamedDrop(cat, n);
    ReportsAppend(m, p.events, p.counts, p.hashes, e);
    DropNamed(cat, p.events, e);
    DropSetAppend(p.events, e);
    OneMoreGone(start.hashes, DropSet(start.events), gone, n);
  }

  /** Of the keys no longer to do, those not kept are gone. */
  ghost predicate Swept(keys: set<string>, todo: set<string>, keep: set<string>, gone: set<string>) {
    todo <= keys && gone == (keys - todo) - keep
  }

  lemma {:induction false} SweepInit(keys: set<string>, keep: set<string>)
    ensures Swept(keys, keys, keep, {})
  {
  }

  lemma {:induction false} SweepStep(keys: set<string>, todo: set<string>, keep: set<string>, gone: set<string>, n: string)
    requires Swept(keys, todo, keep, gone) && n in todo
    ensures n in keys && n !in gone
    ensures Swept(keys, todo - {n}, keep, if n in keep then gone else gone + {n})
  {
  }

  lemma {:induction false} SweepDone(keys: set<string>, keep: set<string>, gone: set<string>)
    requires Swept(keys, {}, keep, gone)
    ensures gone == keys - keep
  {
  }

  lemma {:induction false} JoinedMember(cat: Category, idents: set<string>, n: string)
    requires AllJoined(cat, idents) && n in idents
    ensures Joined(cat, n)
  {
    hide Joined;
  }

  lemma {:induction false} RemovedInit(cat: Category, m: Hashes, start: Progress)
    requires Reports(m, start.events, start.counts, start.hashes) && DropsNamed(cat, start.events)
    ensures Removed(cat, m, start, {}, start)
  {
    hide Reports, DropsNamed, DropSet;
    assert start.hashes - {} == start.hashes;
  }

  /** The loop over the remembered objects, in any order: those missing from `keep` are dropped. */
  method DropVanished(cat: Category, ghost m: Hashes, start: Progress, keep: set<string>) returns (p: Progress)
    requires Reports(m, start.events, start.counts, start.hashes)
    requires AllJoined(cat, start.hashes.Keys) && DropsNamed(cat, start.events)
    ensures Removed(cat, m, start, start.hashes.Keys - keep, p)
  {
    hide *;
    p := start;
    var todo := start.hashes.Keys;
    ghost var gone := {};
    RemovedInit(cat, m, start);
    SweepInit(start.hashes.Keys, keep);
    while todo != {}
      invariant Swept(start.hashes.Keys, todo, keep, gone)
      invariant Removed(cat, m, start, gone, p)
      decreases |todo|
    {
      var n :| n in todo;
      SweepStep(start.hashes.Keys, todo, keep, gone, n);
      if n !in keep {
        JoinedMember(cat, start.hashes.Keys, n);
        RemovedStep(cat, m, start, gone, p, n);
        p := Dropping(cat, p, n);
        gone := gone + {n};
      }
      todo := todo - {n};
    }
    SweepDone(start.hashes.Keys, keep, gone);
  }

  lemma {:induction false} DropNamed(cat: Category, es: seq<Event>, e: Event)
    requires DropsNamed(cat, es) && Joined(cat, e.ident) && Named(cat, e)
    ensures DropsNamed(cat, es + [e])
  {
  }

  /** A run on a category that was already known. */
  ghost predicate Detected(cat: Category, m: Hashes, rows: seq<Row>, p: Progress) {
    && p.hashes == Final(m, rows)
    && Reports(m, p.events, p.counts, p.hashes)
    && DropsNamed(cat, p.events) && DropSet(p.events) == m.Keys - p.hashes.Keys
    && p.counts.created == |Idents(rows) - m.Keys|
    && (Distinct(rows) ==> p.counts.altered == |Changed(m, rows)| && p.counts.dropped == |m.Keys - Idents(rows)|)
  }

  lemma {:induction false} NoDropsNamed(cat: Category, es: seq<Event>)
    requires NoDrops(es)
    ensures DropsNamed(cat, es) && DropSet(es) == {}
  {
  }

  lemma {:induction false} SweptKeys(m: Hashes, up: Hashes, idents: set<string>)
    requires up.Keys == m.Keys + idents
    ensures var gone := up.Keys - idents;
      && gone == m.Keys - idents
      && (up - gone).Keys == idents
      && m.Keys - (up - gone).Keys == {} + gone
      && {} + gone == gone
  {
  }

  /** The sizes differ, so the vanished objects were looked for. */
  lemma {:induction false} DetectedSwept(cat: Category, m: Hashes, rows: seq<Row>, start: Progress, p: Progress)
    requires Compared(m, rows, false, start) && |start.hashes| != |rows|
    requires Removed(cat, m, start, start.hashes.Keys - Idents(rows), p)
    ensures Detected(cat, m, rows, p)
  {
    UpsertKeys(m, rows);
    NoDropsNamed(cat, start.events);
    hide Upsert, Idents, Changed, Distinct, Reports, NoDrops, DropsNamed, DropSet;
    SweptKeys(m, start.hashes, Idents(rows));
  }

  /** The sizes agree, so nothing was looked for. */
  lemma {:induction false} DetectedUnswept(cat: Category, m: Hashes, rows: seq<Row>, p: Progress)
    requires Compared(m, rows, false, p) && |p.hashes| == |rows|
    ensures Detected(cat, m, rows, p)
  {
    NoDropsNamed(cat, p.events);
    UpsertKeys(m, rows);
    assert m.Keys - p.hashes.Keys == {};
    if Distinct(rows) {
      DistinctRowsAreRemembered(m, rows);
      hide Upsert, Idents, Changed, Distinct, Reports, NoDrops, DropsNamed;
      assert m.Keys - Idents(rows) == {};
    }
  }

  lemma {:induction false} UpsertJoined(cat: Category, m: Hashes, rows: seq<Row>)
    requires AllJoined(cat, m.Keys) && AllJoined(cat, Idents(rows))
    ensures AllJoined(cat, Upsert(m, rows).Keys) && AllJoined(cat, Final(m, rows).Keys) && AllJoined(cat, Current(rows).Keys)
  {
    UpsertKeys(m, rows);
    UpsertKeys(map[], rows);
    hide Upsert, Idents, Joined;
    assert Final(m, rows).Keys <= Upsert(m, rows).Keys;
  }

  /** The privilege rows compared with what was remembered; repeated rows change nothing. */
  ghost predicate Granted(m: Hashes, rows: seq<Row>, firstRun: bool, p: Progress) {
    && p.hashes.Keys == m.Keys + Idents(rows)
    && NoDrops(p.events)
    && (!firstRun ==> Reports(m, p.events, p.counts, p.hashes))
    && (firstRun ==> p.events == [])
    && p.counts == Counts(if firstRun then 0 else |Idents(rows) - m.Keys|, 0, 0)
  }

  function Granting(firstRun: bool, p: Progress, ident: string): Progress {
    if firstRun then p.(hashes := p.hashes[ident := ""])
    else if ident in p.hashes then p
    else Progress(p.hashes[ident := ""], p.events + [Create(ident, "")], p.counts.(created := p.counts.created + 1))
  }

  lemma {:induction false} GrantedStep(m: Hashes, rows: seq<Row>, i: nat, firstRun: bool, p: Progress)
    requires i < |rows| && Granted(m, rows[..i], firstRun, p)
    ensures Granted(m, rows[..i + 1], firstRun, Granting(firstRun, p, rows[i].ident))
  {
    hide Idents, Reports, Upsert, NoDrops;
    var n := rows[i].ident;
    RowAppend(m, rows, i);
    DifferenceGrows(Idents(rows[..i]), m.Keys, n);
    KeysGrow(m, Idents(rows[..i]), p.hashes, n);
    if !firstRun && n !in p.hashes {
      ReportsAppend(m, p.events, p.counts, p.hashes, Create(n, ""));
      NoDropsAppend(p.events, Create(n, ""));
    }
  }

  lemma {:induction false} KeysGrow(m: Hashes, idents: set<string>, hashes: Hashes, n: string)
    requires hashes.Keys == m.Keys + idents
    ensures hashes[n := ""].Keys == m.Keys + (idents + {n})
    ensures n in hashes ==> hashes.Keys == m.Keys + (idents + {n})
    ensures n in hashes <==> n in m.Keys || n in idents
  {
  }

  lemma {:induction false} NoDropsAppend(es: seq<Event>, e: Event)
    requires NoDrops(es) && !e.Drop?
    ensures NoDrops(es + [e])
  {
  }

  lemma {:induction false} GrantedInit(m: Hashes, rows: seq<Row>, firstRun: bool)
    ensures Granted(m, rows[..0], firstRun, Progress(m, [], Counts(0, 0, 0)))
  {
    assert Idents(rows[..0]) == {};
  }

  /** The loop over the privilege rows; the current ones are collected except on a first run. */
  method GrantRows(m: Hashes, rows: seq<Row>, firstRun: bool) returns (p: Progress, current: set<string>)
    ensures Granted(m, rows, firstRun, p)
    ensures current == if firstRun then {} else Idents(rows)
  {
    p, current := Progress(m, [], Counts(0, 0, 0)), {};
    GrantedInit(m, rows, firstRun);
    NoIdents(rows[..0]);
    hide Granted, Idents, Upsert;
    for i := 0 to |rows|
      invariant Granted(m, rows[..i], firstRun, p)
      invariant current == if firstRun then {} else Idents(rows[..i])
    {
      GrantedStep(m, rows, i, firstRun, p);
      RowAppend(m, rows, i);
      var n := rows[i].ident;
      if firstRun {
        p := p.(hashes := p.hashes[n := ""]);
      } else {
        if n !in p.hashes {
          p := Progress(p.hashes[n := ""], p.events + [Create(n, "")], p.counts.(created := p.counts.created + 1));
        }
        current := current + {n};
      }
    }
    assert rows[..|rows|] == rows;
  }

  /** A privilege run on a known category. */
  ghost predicate PrivilegesDetected(m: Hashes, rows: seq<Row>, p: Progress) {
    && Reports(m, p.events, p.counts, p.hashes)
    && DropsNamed(PRIVILEGES, p.events) && DropSet(p.events) == m.Keys - p.hashes.Keys
    && (rows == [] ==> p == Progress(m, [], Counts(0, 0, 0)))
    && (rows != [] ==> p.hashes.Keys == Idents(rows) && p.counts == Counts(|Idents(rows) - m.Keys|, 0, |m.Keys - Idents(rows)|))
  }

  /** The remembered privileges are the current ones unless an empty result met a non-empty state. */
  lemma {:induction false} PrivilegesCurrentIff(m: Hashes, rows: seq<Row>, p: Progress)
    requires PrivilegesDetected(m, rows, p)
    ensures p.hashes.Keys == Idents(rows) <==> rows != [] || m == map[]
  {
    if rows == [] {
      assert Idents(rows) == {};
    }
  }

  lemma {:induction false} Revoked(m: Hashes, rows: seq<Row>, start: Progress, p: Progress)
    requires Granted(m, rows, false, start) && rows != []
    requires Removed(PRIVILEGES, m, start, start.hashes.Keys - Idents(rows), p)
    ensures PrivilegesDetected(m, rows, p)
  {
    NoDropsNamed(PRIVILEGES, start.events);
    hide Idents, Reports, DropsNamed, NoDrops, DropSet;
    SweptKeys(m, start.hashes, Idents(rows));
  }

  lemma {:induction false} NothingCurrent(m: Hashes, rows: seq<Row>, p: Progress)
    requires Granted(m, rows, false, p) && rows == []
    ensures PrivilegesDetected(m, rows, p)
  {
    NoDropsNamed(PRIVILEGES, p.events);
    assert Idents(rows) == {} && Idents(rows) - m.Keys == {};
    NoEvents(m, p);
  }

  lemma {:induction false} NoEvents(m: Hashes, p: Progress)
    requires Reports(m, p.events, Counts(0, 0, 0), p.hashes)
    ensures p.events == [] && p.hashes == m
  {
    assert Tally(p.events) == Counts(0, 0, 0);
  }

  lemma {:induction false} GrantedJoined(m: Hashes, rows: seq<Row>, firstRun: bool, p: Progress)
    requires Granted(m, rows, firstRun, p) && AllJoined(PRIVILEGES, m.Keys) && AllJoined(PRIVILEGES, Idents(rows))
    ensures AllJoined(PRIVILEGES, p.hashes.Keys) && DropsNamed(PRIVILEGES, p.events)
    ensures !firstRun ==> Reports(m, p.events, p.counts, p.hashes)
    ensures firstRun ==> p.events == [] && p.counts == Counts(0, 0, 0) && p.hashes.Keys == m.Keys + Idents(rows)
  {
    NoDropsNamed(PRIVILEGES, p.events);
    hide Idents, Joined, Reports;
  }

  lemma {:induction false} DetectedJoined(m: Hashes, rows: seq<Row>, p: Progress)
    requires PrivilegesDetected(m, rows, p) && AllJoined(PRIVILEGES, m.Keys) && AllJoined(PRIVILEGES, Idents(rows))
    ensures AllJoined(PRIVILEGES, p.hashes.Keys)
  {
    hide Idents, Joined, Reports, AllJoined, DropsNamed;
  }

  lemma {:induction false} NoIdents(rows: seq<Row>)
    ensures Idents(rows) == {} <==> rows == []
  {
    if rows != [] {
      assert rows[0].ident in Idents(rows);
    }
  }

  /** The remembered identifiers were joined from separable parts. */
  ghost predicate CleanKeys(cat: Category, m: Hashes) {
    forall n :: n in m ==> exists ps: seq<string> :: |ps| == cat.arity && CleanParts(cat, ps) && n == IdentOf(cat, ps)
  }

  ghost predicate CleanParts(cat: Category, ps: seq<string>) {
    cat.arity == 1 || (cat.sep != "" && Separable(ps, cat.sep))
  }

  function IdentOf(cat: Category, ps: seq<string>): string
    requires |ps| == cat.arity
  {
    if cat.arity == 1 then ps[0] else Join(ps, cat.sep)
  }

  lemma {:induction false} PartsOfIdent(cat: Category, ps: seq<string>)
    requires cat.arity > 0 && |ps| == cat.arity && CleanParts(cat, ps)
    ensures var n := IdentOf(cat, ps);
      (cat.arity == 1 || |Split(n, cat.sep)| >= cat.arity) && PartsOf(cat, n) == ps
  {
    hide Split, Join, Separable;
    if cat.arity > 1 {
      NamesTheObject(cat, ps);
    } else {
      assert ps == [ps[0]];
    }
  }

  /** The drop and revoke events name exactly the objects that vanished from the remembered state. */
  lemma {:induction false} EventsNameTheVanished(cat: Category, m: Hashes, es: seq<Event>, m': Hashes, ps: seq<string>)
    requires cat.arity > 0 && DropsNamed(cat, es) && DropSet(es) == m.Keys - m'.Keys && CleanKeys(cat, m)
    requires |ps| == cat.arity && CleanParts(cat, ps)
    ensures (exists i :: 0 <= i < |es| && es[i].Drop? && es[i].parts == ps) <==> IdentOf(cat, ps) in m && IdentOf(cat, ps) !in m'
  {
    PartsOfIdent(cat, ps);
    var n := IdentOf(cat, ps);
    hide Split, Join, PartsOf, Joined, IdentOf, Separable;
    if n in m && n !in m' {
      assert n in DropSet(es);
      var i :| 0 <= i < |es| && es[i].Drop? && es[i].ident == n;
      assert Named(cat, es[i]);
    }
    if i :| 0 <= i < |es| && es[i].Drop? && es[i].parts == ps {
      assert Named(cat, es[i]) && es[i].ident in DropSet(es);
      var qs: seq<string> :| |qs| == cat.arity && CleanParts(cat, qs) && es[i].ident == IdentOf(cat, qs);
      PartsOfIdent(cat, qs);
    }
  }

  /** A run on a category that is known but empty counts every object as created. */
  lemma {:induction false} EmptyStateCreates(cat: Category, rows: seq<Row>, p: Progress)
    requires Detected(cat, map[], rows, p) && Distinct(rows)
    ensures p.counts == Counts(|rows|, 0, 0) && Tally(p.events) == p.counts && p.hashes == Current(rows)
  {
    DistinctCount(rows);
    DistinctRowsAreRemembered(map[], rows);
    var none: Hashes := map[];
    assert Idents(rows) - none.Keys == Idents(rows) && Changed(none, rows) == {} && none.Keys - Idents(rows) == {};
  }

  /** How the rows of a query become identifiers and hashes. */
  function SprocRow(name: string, oid: string, md5: string): Row {
    Row(Join([name, oid], IDENT_SEPARATOR), md5)
  }

  function TableRow(table: string, md5: string): Row {
    Row(table, md5)
  }

  function IndexRow(index: string, md5: string, isValid: string): Row {
    Row(index, md5 + isValid)
  }

  function PrivilegeRow(objectType: string, role: string, object_: string, privilege: string): Row {
    Row(Join([objectType, role, object_, privilege], PRIVILEGES.sep), "")
  }

  lemma {:induction false} RowsAreJoined(a: string, b: string, c: string, d: string)
    ensures Joined(SPROCS, SprocRow(a, b, c).ident) && Joined(TABLES, TableRow(a, b).ident)
    ensures Joined(INDEXES, IndexRow(a, b, c).ident) && Joined(PRIVILEGES, PrivilegeRow(a, b, c, d).ident)
  {
    hide Join;
    assert |[a, b]| == 2 && |[a, b, c, d]| == 4;
  }

  class ChangeState {
    /** Remembered hashes by category; a category is absent until its first run. */
    var state: map<string, Hashes>

    constructor ()
      ensures state == map[]
    {
      state := map[];
    }

    ghost predicate Valid(cat: Category)
      reads this
    {
      cat.key in state ==> AllJoined(cat, state[cat.key].Keys)
    }

    /**
     * DetectSprocChanges, DetectTableChanges and DetectIndexChanges. The category comes into being
     * before the query, so a failed first query makes the next run report every object as created.
     */
    method Detect(cat: Category, reply: Reply) returns (events: seq<Event>, counts: Counts)
      requires Valid(cat) && (reply.Rows? ==> AllJoined(cat, Idents(reply.rows)))
      modifies this
      ensures Valid(cat) && cat.key in state
      ensures state == old(state)[cat.key := state[cat.key]]
      ensures reply.Failed? ==> events == [] && counts == Counts(0, 0, 0)
      ensures reply.Failed? ==> state[cat.key] == if cat.key in old(state) then old(state)[cat.key] else map[]
      ensures reply.Rows? && cat.key !in old(state) ==> state[cat.key] == Current(reply.rows) && NoDrops(events)
      ensures reply.Rows? && cat.key !in old(state) && Distinct(reply.rows) ==> events == [] && counts == Counts(0, 0, 0)
      ensures reply.Rows? && cat.key in old(state) ==>
          Detected(cat, old(state)[cat.key], reply.rows, Progress(state[cat.key], events, counts))
    {
      hide AllJoined, Detected, Compared, Removed, Current, Upsert, Final, Idents, Distinct, NoDrops, Reports, DropsNamed;
      events, counts := [], Counts(0, 0, 0);
      var firstRun := cat.key !in state;
      if firstRun {
        state := state[cat.key := map[]];
        NoneJoined(cat);
      }
      if reply.Failed? {
        return;
      }
      var m := state[cat.key];
      var p := UpsertRows(m, reply.rows, firstRun);
      UpsertJoined(cat, m, reply.rows);
      ComparedMeans(cat, m, reply.rows, firstRun, p);
      if !firstRun && |p.hashes| != |reply.rows| {
        var start := p;
        p := DropVanished(cat, m, start, Idents(reply.rows));
        DetectedSwept(cat, m, reply.rows, start, p);
      } else if !firstRun {
        DetectedUnswept(cat, m, reply.rows, p);
      }
      FinalOf(cat, m, reply.rows, p);
      state := state[cat.key := p.hashes];
      events, counts := p.events, p.counts;
    }

    /** DetectPrivilegeChanges: an empty result is taken for a failure to look, not for revokes. */
    method DetectPrivileges(reply: Reply) returns (events: seq<Event>, counts: Counts)
      requires Valid(PRIVILEGES) && (reply.Rows? ==> AllJoined(PRIVILEGES, Idents(reply.rows)))
      modifies this
      ensures Valid(PRIVILEGES) && PRIVILEGES.key in state
      ensures state == old(state)[PRIVILEGES.key := state[PRIVILEGES.key]]
      ensures reply.Failed? ==> events == [] && counts == Counts(0, 0, 0)
      ensures reply.Failed? ==> state[PRIVILEGES.key] == if PRIVILEGES.key in old(state) then old(state)[PRIVILEGES.key] else map[]
      ensures reply.Rows? && PRIVILEGES.key !in old(state) ==>
          state[PRIVILEGES.key].Keys == Idents(reply.rows) && events == [] && counts == Counts(0, 0, 0)
      ensures reply.Rows? && PRIVILEGES.key in old(state) ==>
          PrivilegesDetected(old(state)[PRIVILEGES.key], reply.rows, Progress(state[PRIVILEGES.key], events, counts))
    {
      hide AllJoined, PrivilegesDetected, Granted, Removed, Idents, Reports, DropsNamed;
      events, counts := [], Counts(0, 0, 0);
      var firstRun := PRIVILEGES.key !in state;
      if firstRun {
        state := state[PRIVILEGES.key := map[]];
        NoneJoined(PRIVILEGES);
      }
      if reply.Failed? {
        return;
      }
      var m := state[PRIVILEGES.key];
      var p, current := GrantRows(m, reply.rows, firstRun);
      GrantedJoined(m, reply.rows, firstRun, p);
      NoIdents(reply.rows);
      if !firstRun {
        if current != {} {
          var start := p;
          p := DropVanished(PRIVILEGES, m, start, current);
          Revoked(m, reply.rows, start, p);
        } else {
          NothingCurrent(m, reply.rows, p);
        }
        DetectedJoined(m, reply.rows, p);
      }
      state := state[PRIVILEGES.key := p.hashes];
      events, counts := p.events, p.counts;
    }

    /** A first query that fails makes the next run report every object as created. */
    method FailedFirstQuery(cat: Category, rows: seq<Row>) returns (events: seq<Event>, counts: Counts)
      requires cat.key !in state && AllJoined(cat, Idents(rows)) && Distinct(rows)
      modifies this
      ensures cat.key in state && state[cat.key] == Current(rows)
      ensures counts == Counts(|rows|, 0, 0) && Tally(events) == counts
    {
      hide AllJoined, Detected, Current, Idents, Distinct, Reports, DropsNamed;
      events, counts := Detect(cat, Failed);
      events, counts := Detect(cat, Rows(rows));
      EmptyStateCreates(cat, rows, Progress(state[cat.key], events, counts));
    }

    /** An index whose validity flips is reported as altered, though its definition stays the same. */
    method IndexValidityFlips(index: string, md5: string, was: string, is_: string) returns (events: seq<Event>, counts: Counts)
      requires "index_hashes" !in state && was != is_
      modifies this
      ensures events == [Alter(index, md5 + is_)] && counts == Counts(0, 1, 0)
      ensures "index_hashes" in state && state["index_hashes"] == map[index := md5 + is_]
    {
      var old', new' := IndexRow(index, md5, was), IndexRow(index, md5, is_);
      SingleRow(INDEXES, old');
      SingleRow(INDEXES, new');
      FlipShows(index, md5, was, is_);
      IndexKey();
      assert Valid(INDEXES) && AllJoined(INDEXES, Idents([old'])) && AllJoined(INDEXES, Idents([new']));
      hide *;
      events, counts := Detect(INDEXES, Rows([old']));
      events, counts := Detect(INDEXES, Rows([new']));
      OneChange(INDEXES, index, md5 + was, md5 + is_, Progress(state[INDEXES.key], events, counts));
    }

    /** The drop event of a function that is gone has its name first and its oid second. */
    method FunctionDropped(name: string, oid: string, md5: string) returns (events: seq<Event>, counts: Counts)
      requires "sproc_hashes" !in state && Separable([name, oid], "¤¤¤")
      modifies this
      ensures |events| == 1 && events[0].Drop? && events[0].parts == [name, oid] && counts == Counts(0, 0, 1)
      ensures "sproc_hashes" in state && state["sproc_hashes"] == map[]
    {
      var row := SprocRow(name, oid, md5);
      RowsAreJoined(name, oid, md5, "");
      SingleRow(SPROCS, row);
      NoRow(SPROCS);
      FunctionParts(name, oid, md5);
      SprocKey();
      assert Valid(SPROCS) && AllJoined(SPROCS, Idents([row]));
      hide *;
      events, counts := Detect(SPROCS, Rows([row]));
      events, counts := Detect(SPROCS, Rows([]));
      OneGone(SPROCS, row.ident, md5, Progress(state[SPROCS.key], events, counts));
    }

    /** A revoked privilege that was the only one stays remembered: the empty result is not looked at. */
    method LastRevokeIsMissed() returns (events: seq<Event>, counts: Counts)
      requires state == map[]
      modifies this
      ensures PRIVILEGES.key in state && state[PRIVILEGES.key].Keys == {PrivilegeRow("table", "bob", "t1", "SELECT").ident}
      ensures events == [] && counts == Counts(0, 0, 0)
    {
      var row := PrivilegeRow("table", "bob", "t1", "SELECT");
      RowsAreJoined("table", "bob", "t1", "SELECT");
      OneIdent(row);
      hide PrivilegeRow, Joined, PrivilegesDetected;
      assert AllJoined(PRIVILEGES, Idents([row])) && AllJoined(PRIVILEGES, Idents([]));
      hide AllJoined, Idents;
      events, counts := DetectPrivileges(Rows([row]));
      ghost var m := state[PRIVILEGES.key];
      events, counts := DetectPrivileges(Rows([]));
      EmptyResult(m, Progress(state[PRIVILEGES.key], events, counts));
    }
  }

  lemma {:induction false} IndexKey()
    ensures INDEXES.key == "index_hashes"
  {
  }

  lemma {:induction false} SprocKey()
    ensures SPROCS.key == "sproc_hashes"
  {
  }

  lemma {:induction false} FlipShows(index: string, md5: string, was: string, is_: string)
    ensures IndexRow(index, md5, was) == Row(index, md5 + was) && IndexRow(index, md5, is_) == Row(index, md5 + is_)
    ensures was != is_ ==> md5 + was != md5 + is_
  {
    assert (md5 + was)[|md5|..] == was && (md5 + is_)[|md5|..] == is_;
  }

  lemma {:induction false} FunctionParts(name: string, oid: string, md5: string)
    requires Separable([name, oid], "¤¤¤")
    ensures var ident := SprocRow(name, oid, md5).ident;
      && SprocRow(name, oid, md5).hash == md5
      && |Split(ident, SPROCS.sep)| >= 2 && PartsOf(SPROCS, ident) == [name, oid]
  {
    hide Split, Join, Separable, PartsOf;
    NamesTheObject(SPROCS, [name, oid]);
  }

  lemma {:induction false} SingleRow(cat: Category, row: Row)
    ensures Current([row]) == map[row.ident := row.hash] && Idents([row]) == {row.ident} && Distinct([row])
    ensures Joined(cat, row.ident) || cat.arity == 1 ==> AllJoined(cat, Idents([row]))
  {
    OneIdent(row);
    RowAppend(map[], [row], 0);
    assert [row][..0] == [] && [row][..1] == [row];
  }

  lemma {:induction false} NoRow(cat: Category)
    ensures Current([]) == map[] && Idents([]) == {} && Distinct([]) && AllJoined(cat, Idents([]))
  {
  }

  lemma {:induction false} TallyLength(es: seq<Event>)
    ensures |es| == Tally(es).created + Tally(es).altered + Tally(es).dropped
  {
    if es != [] {
      TallyLength(es[..|es| - 1]);
    }
  }

  lemma {:induction false} OnlyEvent(m: Hashes, es: seq<Event>, c: Counts, m': Hashes)
    requires Reports(m, es, c, m') && c.created + c.altered + c.dropped == 1
    ensures |es| == 1 && Happens(m, es[0]) && Apply(m, es[0]) == m'
    ensures (es[0].Alter? <==> c.altered == 1) && (es[0].Drop? <==> c.dropped == 1)
  {
    TallyLength(es);
    assert es[..0] == [];
    hide Apply, Happens;
  }

  lemma {:induction false} OneChange(cat: Category, n: string, h: string, h': string, p: Progress)
    requires h != h' && Detected(cat, map[n := h], [Row(n, h')], p)
    ensures p.events == [Alter(n, h')] && p.counts == Counts(0, 1, 0) && p.hashes == map[n := h']
  {
    var m: Hashes, rows := map[n := h], [Row(n, h')];
    SingleRow(cat, rows[0]);
    DistinctRowsAreRemembered(m, rows);
    assert Changed(m, rows) == {n} by { assert rows[0].ident in m && m[rows[0].ident] != rows[0].hash; }
    assert Idents(rows) - m.Keys == {} && m.Keys - Idents(rows) == {};
    assert p.hashes == map[n := h'] && p.counts == Counts(0, 1, 0);
    hide Final, Upsert, Idents, Changed, Distinct, Reports, DropsNamed, DropSet;
    OnlyEvent(m, p.events, p.counts, p.hashes);
    assert p.events == [p.events[0]];
  }

  lemma {:induction false} OneGone(cat: Category, n: string, h: string, p: Progress)
    requires Detected(cat, map[n := h], [], p)
    ensures |p.events| == 1 && p.events[0].Drop? && p.counts == Counts(0, 0, 1) && p.hashes == map[]
    ensures (cat.arity == 1 || (cat.sep != "" && |Split(n, cat.sep)| >= cat.arity)) && p.events[0].parts == PartsOf(cat, n)
  {
    var m: Hashes := map[n := h];
    NoRow(cat);
    DistinctRowsAreRemembered(m, []);
    assert Changed(m, []) == {} && Idents([]) - m.Keys == {} && m.Keys - Idents([]) == {n};
    assert p.hashes == map[] && p.counts == Counts(0, 0, 1);
    hide Final, Upsert, Idents, Changed, Distinct, Reports, Split, PartsOf, Joined;
    OnlyEvent(m, p.events, p.counts, p.hashes);
    assert Named(cat, p.events[0]);
  }

  lemma {:induction false} OneIdent(row: Row)
    ensures Idents([row]) == {row.ident} && Idents([]) == {}
  {
    assert [row][0] == row;
  }

  lemma {:induction false} EmptyResult(m: Hashes, p: Progress)
    requires PrivilegesDetected(m, [], p)
    ensures p == Progress(m, [], Counts(0, 0, 0))
  {
  }

  lemma {:induction false} NoneJoined(cat: Category)
    ensures var none: Hashes := map[]; AllJoined(cat, none.Keys)
  {
  }

  lemma {:induction false} FinalOf(cat: Category, m: Hashes, rows: seq<Row>, p: Progress)
    requires AllJoined(cat, Upsert(m, rows).Keys) && AllJoined(cat, Final(m, rows).Keys)
    requires Detected(cat, m, rows, p) || p.hashes == Upsert(m, rows)
    ensures AllJoined(cat, p.hashes.Keys)
  {
    hide Final, Upsert, AllJoined;
  }

  lemma {:induction false} ComparedMeans(cat: Category, m: Hashes, rows: seq<Row>, firstRun: bool, p: Progress)
    requires Compared(m, rows, firstRun, p)
    ensures p.hashes == Upsert(m, rows) && DropsNamed(cat, p.events) && NoDrops(p.events)
    ensures m == map[] ==> p.hashes == Current(rows)
    ensures firstRun && m == map[] && Distinct(rows) ==> p.events == [] && p.counts == Counts(0, 0, 0)
    ensures !firstRun ==> Reports(m, p.events, p.counts, p.hashes)
  {
    NoDropsNamed(cat, p.events);
    assert m == map[] ==> Changed(m, rows) == {};
  }
}
