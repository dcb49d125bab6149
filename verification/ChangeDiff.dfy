/**
 * Remembered object hashes against a fresh query result: what one detection run may report and
 * what it leaves behind, for functions, tables and indexes and for privileges.
 */
module ChangeDiff {

  /** One object of a query result: its identifier and its hash (for an index, hash and validity). */
  datatype Row = Row(ident: string, hash: string)

  type Hashes = map<string, string>

  function Idents(rows: seq<Row>): set<string> {
    set i | 0 <= i < |rows| :: rows[i].ident
  }

  ghost predicate Distinct(rows: seq<Row>) {
    forall i, j :: 0 <= i < j < |rows| ==> rows[i].ident != rows[j].ident
  }

  /** The remembered hashes with those of the rows written over them. */
  function Upsert(m: Hashes, rows: seq<Row>): Hashes {
    if rows == [] then m
    else
      var k := |rows| - 1;
      Upsert(m, rows[..k])[rows[k].ident := rows[k].hash]
  }

  /** What the rows say by themselves. */
  function Current(rows: seq<Row>): Hashes {
    Upsert(map[], rows)
  }

  datatype Event = Create(ident: string, hash: string) | Alter(ident: string, hash: string) | Drop(ident: string, parts: seq<string>)

  /** The event is a real change of `m`. */
  predicate Happens(m: Hashes, e: Event) {
    match e {
      case Create(ident, _) => ident !in m
      case Alter(ident, hash) => ident in m && m[ident] != hash
      case Drop(ident, _) => ident in m
    }
  }

  function Apply(m: Hashes, e: Event): Hashes {
    match e {
      case Create(ident, hash) => m[ident := hash]
      case Alter(ident, hash) => m[ident := hash]
      case Drop(ident, _) => m - {ident}
    }
  }

  function Replay(m: Hashes, es: seq<Event>): Hashes {
    if es == [] then m else Apply(Replay(m, es[..|es| - 1]), es[|es| - 1])
  }

  /** Replayed in order, every event is a real change. */
  ghost predicate AllHappen(m: Hashes, es: seq<Event>) {
    es == [] || (AllHappen(m, es[..|es| - 1]) && Happens(Replay(m, es[..|es| - 1]), es[|es| - 1]))
  }

  datatype Counts = Counts(created: nat, altered: nat, dropped: nat)

  function Tally(es: seq<Event>): Counts {
    if es == [] then Counts(0, 0, 0)
    else
      var c := Tally(es[..|es| - 1]);
      match es[|es| - 1] {
        case Create(_, _) => c.(created := c.created + 1)
        case Alter(_, _) => c.(altered := c.altered + 1)
        case Drop(_, _) => c.(dropped := c.dropped + 1)
      }
  }

  lemma {:induction false} EventAppend(m: Hashes, es: seq<Event>, e: Event)
    ensures Replay(m, es + [e]) == Apply(Replay(m, es), e)
    ensures AllHappen(m, es) && Happens(Replay(m, es), e) ==> AllHappen(m, es + [e])
    ensures Tally(es + [e]).created == Tally(es).created + if e.Create? then 1 else 0
    ensures Tally(es + [e]).altered == Tally(es).altered + if e.Alter? then 1 else 0
    ensures Tally(es + [e]).dropped == Tally(es).dropped + if e.Drop? then 1 else 0
  {
    assert (es + [e])[..|es|] == es;
  }

  lemma {:induction false} RowAppend(m: Hashes, rows: seq<Row>, i: nat)
    requires i < |rows|
    ensures Upsert(m, rows[..i + 1]) == Upsert(m, rows[..i])[rows[i].ident := rows[i].hash]
    ensures Idents(rows[..i + 1]) == Idents(rows[..i]) + {rows[i].ident}
  {
    assert rows[..i + 1][..i] == rows[..i];
    forall n ensures n in Idents(rows[..i + 1]) <==> n in Idents(rows[..i]) || n == rows[i].ident {
      if n in Idents(rows[..i]) {
        var k :| 0 <= k < i && rows[..i][k].ident == n;
        assert rows[..i + 1][k].ident == n;
      }
      assert rows[..i + 1][i].ident == rows[i].ident;
    }
  }

  lemma {:induction false} UpsertKeys(m: Hashes, rows: seq<Row>)
    ensures Upsert(m, rows).Keys == m.Keys + Idents(rows)
  {
    if rows != [] {
      UpsertKeys(m, rows[..|rows| - 1]);
      RowAppend(m, rows, |rows| - 1);
      assert rows[..|rows|] == rows;
    }
  }

  /** The rows decide their own objects, everything else stays. */
  lemma {:induction false} UpsertValues(m: Hashes, rows: seq<Row>, n: string)
    ensures n in Idents(rows) ==> n in Upsert(m, rows) && n in Current(rows) && Upsert(m, rows)[n] == Current(rows)[n]
    ensures n !in Idents(rows) ==> (n in Upsert(m, rows) <==> n in m)
    ensures n !in Idents(rows) && n in m ==> Upsert(m, rows)[n] == m[n]
  {
    if rows != [] {
      var k := |rows| - 1;
      UpsertValues(m, rows[..k], n);
      RowAppend(m, rows, k);
      RowAppend(map[], rows, k);
      assert rows[..|rows|] == rows;
    }
  }

  /** What a run on a known category leaves behind: vanished objects go only if the sizes differ. */
  function Final(m: Hashes, rows: seq<Row>): Hashes {
    var up := Upsert(m, rows);
    if |up| != |rows| then up - (up.Keys - Idents(rows)) else up
  }

  lemma {:induction false} SweptIsCurrent(m: Hashes, rows: seq<Row>)
    ensures Upsert(m, rows) - (Upsert(m, rows).Keys - Idents(rows)) == Current(rows)
  {
    var up := Upsert(m, rows);
    UpsertKeys(m, rows);
    UpsertKeys(map[], rows);
    forall n | n in Idents(rows) ensures up[n] == Current(rows)[n] {
      UpsertValues(m, rows, n);
    }
  }

  /**
   * A run leaves exactly what the rows say if and only if nothing vanished or the size of old and
   * new objects together differs from the number of rows.
   */
  lemma {:induction false} StateIsCurrentIff(m: Hashes, rows: seq<Row>)
    ensures Final(m, rows) == Current(rows) <==> m.Keys <= Idents(rows) || |m.Keys + Idents(rows)| != |rows|
  {
    var up := Upsert(m, rows);
    UpsertKeys(m, rows);
    UpsertKeys(map[], rows);
    SweptIsCurrent(m, rows);
    hide Upsert, Idents;
    assert |up| == |up.Keys|;
    if m.Keys <= Idents(rows) {
      assert up.Keys - Idents(rows) == {};
      assert up - {} == up;
    } else if |up| == |rows| {
      var n :| n in m.Keys && n !in Idents(rows);
      assert n in up && n !in Current(rows);
    }
  }

  lemma {:induction false} DistinctCount(rows: seq<Row>)
    requires Distinct(rows)
    ensures |Idents(rows)| == |rows|
  {
    if rows != [] {
      var k := |rows| - 1;
      DistinctCount(rows[..k]);
      RowAppend(map[], rows, k);
      assert rows[..|rows|] == rows;
      assert rows[k].ident !in Idents(rows[..k]);
    }
  }

  lemma {:induction false} LargerUnion(a: set<string>, b: set<string>)
    ensures |a + b| >= |b|
    ensures |a + b| == |b| <==> a <= b
  {
    assert a + b == b + (a - b);
    assert |b + (a - b)| == |b| + |a - b|;
    if a <= b {
      assert a - b == {};
    } else {
      var n :| n in a && n !in b;
      assert n in a - b;
    }
  }

  /** With distinct identifiers the state is always current: the length comparison skips nothing dropped. */
  lemma {:induction false} DistinctRowsAreRemembered(m: Hashes, rows: seq<Row>)
    requires Distinct(rows)
    ensures Final(m, rows) == Current(rows)
    ensures |Upsert(m, rows)| == |rows| <==> m.Keys <= Idents(rows)
  {
    DistinctCount(rows);
    LargerUnion(m.Keys, Idents(rows));
    StateIsCurrentIff(m, rows);
    UpsertKeys(m, rows);
    assert |Upsert(m, rows)| == |Upsert(m, rows).Keys|;
  }

  /** Two rows for one object hide that another one vanished. */
  lemma {:induction false} DuplicateHidesDrop()
    ensures var m: Hashes, rows := map["a" := "1", "b" := "2"], [Row("a", "1"), Row("a", "1")];
      "b" !in Idents(rows) && "b" in Final(m, rows)
  {
    var m: Hashes, rows := map["a" := "1", "b" := "2"], [Row("a", "1"), Row("a", "1")];
    assert rows[..1] == [Row("a", "1")] && rows[..1][..0] == [];
    assert Upsert(m, rows[..1]) == m;
    assert Upsert(m, rows) == m;
    assert m.Keys == {"a", "b"};
    assert |m| == |m.Keys| == 2;
    assert Idents(rows) == {"a"};
  }

  /** The objects whose hash differs from the remembered one. */
  function Changed(m: Hashes, rows: seq<Row>): set<string> {
    set i | 0 <= i < |rows| && rows[i].ident in m && m[rows[i].ident] != rows[i].hash :: rows[i].ident
  }

  lemma {:induction false} ChangedAppend(m: Hashes, rows: seq<Row>, i: nat)
    requires i < |rows| && Distinct(rows)
    ensures rows[i].ident !in Idents(rows[..i]) && rows[i].ident !in Changed(m, rows[..i])
    ensures var r := rows[i];
      Changed(m, rows[..i + 1]) == Changed(m, rows[..i]) + if r.ident in m && m[r.ident] != r.hash then {r.ident} else {}
  {
    var r := rows[i];
    forall n ensures n in Changed(m, rows[..i + 1]) <==> n in Changed(m, rows[..i]) || (n == r.ident && r.ident in m && m[r.ident] != r.hash) {
      if n in Changed(m, rows[..i]) {
        var k :| 0 <= k < i && rows[..i][k].ident == n && n in m && m[n] != rows[..i][k].hash;
        assert rows[..i + 1][k].ident == n;
      }
      assert rows[..i + 1][i] == r;
    }
  }
}
