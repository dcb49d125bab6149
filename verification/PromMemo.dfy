/**
 * Remembering descriptors per envelope: the exporter keys them by name and joined label names, and this
 * is when that gives the descriptor that would be built, and what holds even when it does not.
 */
module PromMemo {
  import opened Strings
  import opened SortedKeys
  import opened PromCells

  /** The cell gets as far as its descriptor: it is exported and its identity is new. */
  ghost predicate Passes(cx: Context, before: seq<Cell>, c: Cell) {
    Eligible(cx, c.field) && IdentityOf(cx, c) !in Taken(cx, before)
  }

  /** The cells that get as far as their descriptor. */
  ghost function Fresh(cx: Context, cells: seq<Cell>): seq<Cell> {
    if cells == [] then []
    else
      var before, c := cells[..|cells| - 1], cells[|cells| - 1];
      if Passes(cx, before, c) then Fresh(cx, before) + [c] else Fresh(cx, before)
  }

  ghost function DescOf(cx: Context, c: Cell): Desc {
    Build(cx, c).desc
  }

  /** What a descriptor is remembered under. */
  function KeyOf(d: Desc): (string, string) {
    (d.fqName, Join(d.labelKeys, KEY_SEPARATOR))
  }

  /** The descriptors remembered after some cells: for each key the first one built. */
  ghost function Memo(cx: Context, news: seq<Cell>): map<(string, string), Desc> {
    if news == [] then map[]
    else
      var memo, d := Memo(cx, news[..|news| - 1]), DescOf(cx, news[|news| - 1]);
      if KeyOf(d) in memo then memo else memo[KeyOf(d) := d]
  }

  /** The sample of a cell with the remembered descriptor if there is one. */
  ghost function Recall(cx: Context, news: seq<Cell>, c: Cell): Sample {
    var (memo, s) := (Memo(cx, news), Build(cx, c));
    if KeyOf(s.desc) in memo then s.(desc := memo[KeyOf(s.desc)]) else s
  }

  /** The samples the exporter sends for the cells. */
  ghost function Sent(cx: Context, cells: seq<Cell>): seq<Sample> {
    if cells == [] then []
    else
      var before, c := cells[..|cells| - 1], cells[|cells| - 1];
      var s := Recall(cx, Fresh(cx, before), c);
      if Passes(cx, before, c) && cx.accepts(s) then Sent(cx, before) + [s] else Sent(cx, before)
  }

  lemma {:induction false} CellAppend(cx: Context, cells: seq<Cell>, c: Cell)
    ensures Taken(cx, cells + [c]) == if Eligible(cx, c.field) then Taken(cx, cells) + {IdentityOf(cx, c)} else Taken(cx, cells)
    ensures Fresh(cx, cells + [c]) == if Passes(cx, cells, c) then Fresh(cx, cells) + [c] else Fresh(cx, cells)
    ensures EligibleCount(cx, cells + [c]) == EligibleCount(cx, cells) + if Eligible(cx, c.field) then 1 else 0
    ensures var s := Recall(cx, Fresh(cx, cells), c);
      Sent(cx, cells + [c]) == if Passes(cx, cells, c) && cx.accepts(s) then Sent(cx, cells) + [s] else Sent(cx, cells)
  {
    hide IdentityOf, Build, Eligible, Recall, Passes;
    assert (cells + [c])[..|cells|] == cells;
  }

  lemma {:induction false} MemoAppend(cx: Context, news: seq<Cell>, c: Cell)
    ensures var (memo, d) := (Memo(cx, news), DescOf(cx, c));
      Memo(cx, news + [c]) == if KeyOf(d) in memo then memo else memo[KeyOf(d) := d]
  {
    hide DescOf, KeyOf;
    assert (news + [c])[..|news|] == news;
  }

  /** The first cell with the key. */
  ghost predicate FirstWith(cx: Context, news: seq<Cell>, k: (string, string), i: int) {
    0 <= i < |news| && KeyOf(DescOf(cx, news[i])) == k && forall j :: 0 <= j < i ==> KeyOf(DescOf(cx, news[j])) != k
  }

  /** What is remembered under a key is the descriptor of the first cell with that key. */
  lemma {:induction false} MemoIsFirst(cx: Context, news: seq<Cell>, k: (string, string))
    ensures k in Memo(cx, news) <==> exists i :: FirstWith(cx, news, k, i)
    ensures forall i :: FirstWith(cx, news, k, i) ==> k in Memo(cx, news) && Memo(cx, news)[k] == DescOf(cx, news[i])
  {
    hide DescOf, KeyOf, Memo;
    if news == [] {
      NoCellSent(cx);
    } else {
      var n := |news| - 1;
      var before, c := news[..n], news[n];
      assert news == before + [c];
      MemoIsFirst(cx, before, k);
      MemoAppend(cx, before, c);
      forall i | 0 <= i < n ensures FirstWith(cx, before, k, i) <==> FirstWith(cx, news, k, i) {
        assert forall j :: 0 <= j <= i ==> before[j] == news[j];
      }
      if exists i :: FirstWith(cx, before, k, i) {
        var i :| FirstWith(cx, before, k, i);
        assert FirstWith(cx, news, k, i);
      } else if KeyOf(DescOf(cx, c)) == k {
        FirstExists(cx, before, k);
        assert FirstWith(cx, news, k, n);
      }
    }
  }

  lemma {:induction false} FirstExists(cx: Context, news: seq<Cell>, k: (string, string))
    ensures (exists i :: FirstWith(cx, news, k, i)) <==> exists j :: 0 <= j < |news| && KeyOf(DescOf(cx, news[j])) == k
  {
    hide DescOf, KeyOf;
    if j :| 0 <= j < |news| && KeyOf(DescOf(cx, news[j])) == k {
      var i := LeastWith(cx, news, k, j);
    }
  }

  lemma {:induction false} LeastWith(cx: Context, news: seq<Cell>, k: (string, string), j: nat) returns (i: nat)
    requires j < |news| && KeyOf(DescOf(cx, news[j])) == k
    ensures FirstWith(cx, news, k, i)
  {
    hide DescOf, KeyOf;
    if m :| 0 <= m < j && KeyOf(DescOf(cx, news[m])) == k {
      i := LeastWith(cx, news, k, m);
    } else {
      i := j;
    }
  }

  /** Cells remembered under one key have one descriptor. */
  ghost predicate NoClash(cx: Context, news: seq<Cell>) {
    forall i, j :: 0 <= i < j < |news| && KeyOf(DescOf(cx, news[i])) == KeyOf(DescOf(cx, news[j])) ==>
      DescOf(cx, news[i]) == DescOf(cx, news[j])
  }

  ghost predicate RecalledAt(cx: Context, news: seq<Cell>, i: int) {
    0 <= i < |news| && Recall(cx, news[..i], news[i]) == Build(cx, news[i])
  }

  lemma {:induction false} RecallIs(cx: Context, news: seq<Cell>, j: nat)
    requires j < |news|
    ensures var k := KeyOf(DescOf(cx, news[j]));
      RecalledAt(cx, news, j) <==> forall i :: 0 <= i < j && FirstWith(cx, news, k, i) ==> DescOf(cx, news[i]) == DescOf(cx, news[j])
  {
    var k := KeyOf(DescOf(cx, news[j]));
    MemoIsFirst(cx, news[..j], k);
    forall i | 0 <= i < j ensures FirstWith(cx, news[..j], k, i) <==> FirstWith(cx, news, k, i) {
      assert forall m :: 0 <= m <= i ==> news[..j][m] == news[m];
    }
    hide Memo, Build, KeyOf;
    if i :| FirstWith(cx, news[..j], k, i) {
      assert news[..j][i] == news[i];
    }
  }

  /** Every remembered descriptor is the one that would be built if and only if no two cells clash. */
  lemma {:induction false} RecallExactIff(cx: Context, news: seq<Cell>)
    ensures (forall i :: 0 <= i < |news| ==> RecalledAt(cx, news, i)) <==> NoClash(cx, news)
  {
    if NoClash(cx, news) {
      forall j | 0 <= j < |news| ensures RecalledAt(cx, news, j) {
        RecallIs(cx, news, j);
      }
    }
    if forall i :: 0 <= i < |news| ==> RecalledAt(cx, news, i) {
      hide RecalledAt, DescOf, KeyOf;
      forall i, j | 0 <= i < j < |news| && KeyOf(DescOf(cx, news[i])) == KeyOf(DescOf(cx, news[j]))
        ensures DescOf(cx, news[i]) == DescOf(cx, news[j])
      {
        var f := LeastWith(cx, news, KeyOf(DescOf(cx, news[i])), i);
        assert RecalledAt(cx, news, i) && RecalledAt(cx, news, j);
        RecallIs(cx, news, i);
        RecallIs(cx, news, j);
        FirstBefore(cx, news, KeyOf(DescOf(cx, news[i])), f, i);
      }
    }
  }

  lemma {:induction false} FirstBefore(cx: Context, news: seq<Cell>, k: (string, string), f: nat, i: nat)
    requires FirstWith(cx, news, k, f) && i < |news| && KeyOf(DescOf(cx, news[i])) == k
    ensures f <= i
  {
    hide DescOf, KeyOf;
  }

  /** Without a clash the exporter sends what building every sample anew sends. */
  lemma {:induction false} SentIsEmitted(cx: Context, cells: seq<Cell>)
    requires NoClash(cx, Fresh(cx, cells))
    ensures Sent(cx, cells) == Emitted(cx, cells)
  {
    if cells != [] {
      var before, c := cells[..|cells| - 1], cells[|cells| - 1];
      assert cells == before + [c];
      assert NoClash(cx, Fresh(cx, before)) by {
        hide DescOf, KeyOf, Passes;
        ClashPrefix(cx, Fresh(cx, before), Fresh(cx, cells), c);
      }
      SentIsEmitted(cx, before);
      if Passes(cx, before, c) {
        var news := Fresh(cx, before) + [c];
        RecallExactIff(cx, news);
        assert RecalledAt(cx, news, |news| - 1);
        assert news[..|news| - 1] == Fresh(cx, before);
      }
      hide Build, Memo, NoClash, IdentityOf, Taken, Recall;
    }
  }

  lemma {:induction false} ClashPrefix(cx: Context, before: seq<Cell>, all: seq<Cell>, c: Cell)
    requires NoClash(cx, all) && (all == before || all == before + [c])
    ensures NoClash(cx, before)
  {
    hide DescOf, KeyOf;
    assert forall i :: 0 <= i < |before| ==> all[i] == before[i];
  }

  /** The library accepts every sample that is built anew. */
  ghost predicate BuiltAccepted(cx: Context, cells: seq<Cell>) {
    forall i :: 0 <= i < |cells| ==> cx.accepts(Build(cx, cells[i]))
  }

  lemma {:induction false} EmittedAll(cx: Context, cells: seq<Cell>)
    requires BuiltAccepted(cx, cells)
    ensures |Sent(cx, cells)| <= |Emitted(cx, cells)| == |Fresh(cx, cells)|
  {
    if cells != [] {
      var before, c := cells[..|cells| - 1], cells[|cells| - 1];
      EmittedAll(cx, before);
      hide Build, Recall, IdentityOf, Taken, Eligible;
      assert cx.accepts(Build(cx, c));
    }
  }

  /** If the library accepts what is built anew, sending the same means that every descriptor was recalled rightly. */
  lemma {:induction false} SameMeansRecalled(cx: Context, cells: seq<Cell>, i: nat)
    requires BuiltAccepted(cx, cells) && Sent(cx, cells) == Emitted(cx, cells) && i < |Fresh(cx, cells)|
    ensures RecalledAt(cx, Fresh(cx, cells), i)
  {
    var before, c := cells[..|cells| - 1], cells[|cells| - 1];
    EmittedAll(cx, before);
    var old', news := Fresh(cx, before), Fresh(cx, cells);
    var s, t := Recall(cx, old', c), Build(cx, c);
    assert Sent(cx, cells) == if Passes(cx, before, c) && cx.accepts(s) then Sent(cx, before) + [s] else Sent(cx, before);
    assert Emitted(cx, cells) == if Passes(cx, before, c) && cx.accepts(t) then Emitted(cx, before) + [t] else Emitted(cx, before);
    assert news == if Passes(cx, before, c) then old' + [c] else old';
    assert cx.accepts(t);
    hide Build, Recall, Passes, Sent, Emitted, Fresh;
    assert Sent(cx, before) == Emitted(cx, before) by {
      if Passes(cx, before, c) {
        LastsAgree(Sent(cx, before), Emitted(cx, before), s, t);
      }
    }
    if i < |old'| {
      SameMeansRecalled(cx, before, i);
      assert news[..i] == old'[..i];
    } else {
      LastsAgree(Sent(cx, before), Emitted(cx, before), s, t);
      assert news[..i] == old';
    }
  }

  lemma {:induction false} LastsAgree(a: seq<Sample>, b: seq<Sample>, s: Sample, t: Sample)
    ensures a + [s] == b + [t] ==> a == b && s == t
  {
    if a + [s] == b + [t] {
      assert (a + [s])[..|a|] == a && (b + [t])[..|b|] == b && (a + [s])[|a|] == s;
    }
  }

  /** The exporter sends what building every sample anew sends if and only if no two cells clash. */
  lemma {:induction false} SentIsEmittedIff(cx: Context, cells: seq<Cell>)
    requires BuiltAccepted(cx, cells)
    ensures Sent(cx, cells) == Emitted(cx, cells) <==> NoClash(cx, Fresh(cx, cells))
  {
    hide *;
    if NoClash(cx, Fresh(cx, cells)) {
      SentIsEmitted(cx, cells);
    }
    if Sent(cx, cells) == Emitted(cx, cells) {
      forall i | 0 <= i < |Fresh(cx, cells)| ensures RecalledAt(cx, Fresh(cx, cells), i) {
        SameMeansRecalled(cx, cells, i);
      }
      RecallExactIff(cx, Fresh(cx, cells));
    }
  }

  ghost predicate NamesFree(names: set<string>) {
    forall t :: t in names ==> KEY_SEPARATOR[0] !in t
  }

  lemma {:induction false} FreeList(keys: seq<string>, names: set<string>)
    requires Lists(keys, names) && NamesFree(names) && names != {}
    ensures keys != [] && SeparatorFree(keys, KEY_SEPARATOR)
  {
    EmptyLists(keys, names);
    forall i | 0 <= i < |keys| ensures KEY_SEPARATOR[0] !in keys[i] {
      assert keys[i] in keys;
    }
  }

  /** A cell with label names a and b. */
  function PlainCell(value: real, at: int): Cell {
    Cell(map["a" := "1", "b" := "2", "dbname" := "d"], "x", value, at)
  }

  /** A cell with the label name "a\U{00FF}b". */
  function SeparatorCell(value: real, at: int): Cell {
    Cell(map["a\U{00FF}b" := "3", "dbname" := "d"], "x", value, at)
  }

  lemma {:induction false} ClashingKeys(cx: Context, c: Cell, c': Cell)
    requires c == PlainCell(c.value, c.at) && c' == SeparatorCell(c'.value, c'.at)
    ensures Sorted(c.labels.Keys) == ["a", "b", "dbname"] && Sorted(c'.labels.Keys) == ["a\U{00FF}b", "dbname"]
    ensures KeyOf(DescOf(cx, c)) == KeyOf(DescOf(cx, c'))
    ensures Build(cx, c).labelValues == ["1", "2", "d"] && Build(cx, c').labelValues == ["3", "d"]
  {
    ListedKeys();
    OnlyOne(Sorted(c.labels.Keys), ["a", "b", "dbname"], c.labels.Keys);
    OnlyOne(Sorted(c'.labels.Keys), ["a\U{00FF}b", "dbname"], c'.labels.Keys);
    JoinedAlike();
    ClashingValues(c, c');
    hide Join, ValuesFor, MetaOf, Ascending, Lists;
  }

  lemma {:induction false} ClashingValues(c: Cell, c': Cell)
    requires c == PlainCell(c.value, c.at) && c' == SeparatorCell(c'.value, c'.at)
    ensures ValuesFor(c.labels, ["a", "b", "dbname"]) == ["1", "2", "d"] && ValuesFor(c'.labels, ["a\U{00FF}b", "dbname"]) == ["3", "d"]
  {
    assert ["a", "b", "dbname"][..2] == ["a", "b"] && ["a", "b"][..1] == ["a"] && ["a"][..0] == [];
    assert ["a\U{00FF}b", "dbname"][..1] == ["a\U{00FF}b"] && ["a\U{00FF}b"][..0] == [];
    assert ValuesFor(c.labels, ["a"]) == ["1"] && ValuesFor(c.labels, ["a", "b"]) == ["1", "2"];
    assert ValuesFor(c'.labels, ["a\U{00FF}b"]) == ["3"];
  }

  lemma {:induction false} ClashingIdentities(cx: Context, c: Cell, c': Cell)
    requires c == PlainCell(c.value, c.at) && c' == SeparatorCell(c'.value, c'.at)
    ensures IdentityOf(cx, c) != IdentityOf(cx, c')
  {
    ClashingKeys(cx, c, c');
    JoinUnfold(["1", "2", "d"], "_");
    JoinUnfold(["2", "d"], "_");
    JoinUnfold(["3", "d"], "_");
    assert ["1", "2", "d"][1..] == ["2", "d"] && ["2", "d"][1..] == ["d"] && ["3", "d"][1..] == ["d"] && Join(["d"], "_") == "d";
    hide MetaOf, ValuesFor;
    assert |IdentityOf(cx, c)| == |IdentityOf(cx, c')| + 2;
  }

  lemma {:induction false} NoCellSent(cx: Context)
    ensures Taken(cx, []) == {} && Fresh(cx, []) == [] && Memo(cx, []) == map[] && Sent(cx, []) == [] && Emitted(cx, []) == []
  {
  }

  lemma {:induction false} EmittedAppend(cx: Context, cells: seq<Cell>, c: Cell)
    ensures Emitted(cx, cells + [c]) ==
      if Passes(cx, cells, c) && cx.accepts(Build(cx, c)) then Emitted(cx, cells) + [Build(cx, c)] else Emitted(cx, cells)
  {
    hide Build, IdentityOf, Eligible, Taken;
    assert (cells + [c])[..|cells|] == cells;
  }

  lemma {:induction false} RecallIsBuild(cx: Context, news: seq<Cell>, c: Cell)
    ensures var memo := Memo(cx, news);
      Recall(cx, news, c) == if KeyOf(DescOf(cx, c)) in memo then Build(cx, c).(desc := memo[KeyOf(DescOf(cx, c))]) else Build(cx, c)
  {
    hide Build, KeyOf, Memo;
  }

  lemma {:induction false} PassesIs(cx: Context, before: seq<Cell>, c: Cell)
    requires !cx.promSource
    ensures Passes(cx, before, c) <==> IdentityOf(cx, c) !in Taken(cx, before)
    ensures Eligible(cx, c.field)
  {
    hide IdentityOf, Taken;
  }

  lemma {:induction false} OneCellSent(cx: Context, c: Cell)
    requires !cx.promSource && cx.accepts(Build(cx, c))
    ensures Taken(cx, [c]) == {IdentityOf(cx, c)} && Fresh(cx, [c]) == [c] && Memo(cx, [c]) == map[KeyOf(DescOf(cx, c)) := DescOf(cx, c)]
    ensures Sent(cx, [c]) == [Build(cx, c)] && Emitted(cx, [c]) == [Build(cx, c)]
  {
    hide *;
    assert [] + [c] == [c];
    NoCellSent(cx);
    PassesIs(cx, [], c);
    RecallIsBuild(cx, [], c);
    CellAppend(cx, [], c);
    MemoAppend(cx, [], c);
    EmittedAppend(cx, [], c);
  }

  /** Two cells under one key: the second one is sent with the first one's descriptor, if the library takes it. */
  lemma {:induction false} TwoCellsSent(cx: Context, c: Cell, c': Cell)
    requires !cx.promSource && cx.accepts(Build(cx, c)) && cx.accepts(Build(cx, c'))
    requires KeyOf(DescOf(cx, c)) == KeyOf(DescOf(cx, c')) && IdentityOf(cx, c) != IdentityOf(cx, c')
    ensures Emitted(cx, [c, c']) == [Build(cx, c), Build(cx, c')]
    ensures var s := Build(cx, c').(desc := DescOf(cx, c));
      Sent(cx, [c, c']) == if cx.accepts(s) then [Build(cx, c), s] else [Build(cx, c)]
  {
    hide *;
    assert [c] + [c'] == [c, c'];
    OneCellSent(cx, c);
    PassesIs(cx, [c], c');
    RecallIsBuild(cx, [c], c');
    CellAppend(cx, [c], c');
    EmittedAppend(cx, [c], c');
  }

  /** The second of two such cells is given the first one's descriptor, which does not fit its values. */
  lemma {:induction false} SeparatorInNameClashes(cx: Context, c: Cell, c': Cell)
    requires !cx.promSource && c == PlainCell(c.value, c.at) && c' == SeparatorCell(c'.value, c'.at)
    requires forall s :: cx.accepts(s) <==> |s.labelValues| == |s.desc.labelKeys|
    ensures Sent(cx, [c, c']) == [Build(cx, c)] && Emitted(cx, [c, c']) == [Build(cx, c), Build(cx, c')]
  {
    hide MetaOf, ValuesFor, Join, KeyOf, IdentityOf, Sent, Emitted;
    ClashingKeys(cx, c, c');
    ClashingIdentities(cx, c, c');
    assert cx.accepts(Build(cx, c)) && cx.accepts(Build(cx, c')) && DescOf(cx, c).labelKeys == ["a", "b", "dbname"];
    TwoCellsSent(cx, c, c');
  }

  lemma {:induction false} ListedKeys()
    ensures Ascending(["a", "b", "dbname"]) && Lists(["a", "b", "dbname"], map["a" := "1", "b" := "2", "dbname" := "d"].Keys)
    ensures Ascending(["a\U{00FF}b", "dbname"]) && Lists(["a\U{00FF}b", "dbname"], map["a\U{00FF}b" := "3", "dbname" := "d"].Keys)
  {
    assert "a"[0] < "b"[0] && "a"[0] < "dbname"[0] && "b"[0] < "dbname"[0] && "a\U{00FF}b"[0] == 'a';
  }

  lemma {:induction false} JoinedAlike()
    ensures Join(["a", "b", "dbname"], KEY_SEPARATOR) == Join(["a\U{00FF}b", "dbname"], KEY_SEPARATOR)
  {
    JoinUnfold(["a", "b", "dbname"], KEY_SEPARATOR);
    JoinUnfold(["b", "dbname"], KEY_SEPARATOR);
    JoinUnfold(["a\U{00FF}b", "dbname"], KEY_SEPARATOR);
    assert ["a", "b", "dbname"][1..] == ["b", "dbname"] && ["b", "dbname"][1..] == ["dbname"];
    assert ["a\U{00FF}b", "dbname"][1..] == ["dbname"] && Join(["dbname"], KEY_SEPARATOR) == "dbname";
    assert "a" + KEY_SEPARATOR + ("b" + KEY_SEPARATOR + "dbname") == "a\U{00FF}b" + KEY_SEPARATOR + "dbname";
  }

  /* ---- what holds with or without a clash ---- */

  /** Recalling a descriptor changes neither the name nor the label values. */
  lemma {:induction false} RecallKeepsIdentity(cx: Context, news: seq<Cell>, c: Cell)
    ensures var s := Recall(cx, news, c); Identity(s.desc.fqName, s.labelValues) == IdentityOf(cx, c)
  {
    var d := DescOf(cx, c);
    MemoIsFirst(cx, news, KeyOf(d));
    hide Memo, Identity, Join;
    if i :| FirstWith(cx, news, KeyOf(d), i) {
      assert KeyOf(DescOf(cx, news[i])) == KeyOf(d);
    }
  }

  lemma {:induction false} SentAreTaken(cx: Context, cells: seq<Cell>, i: nat)
    requires i < |Sent(cx, cells)|
    ensures var s := Sent(cx, cells)[i]; Identity(s.desc.fqName, s.labelValues) in Taken(cx, cells)
  {
    if cells != [] {
      var before, c := cells[..|cells| - 1], cells[|cells| - 1];
      RecallKeepsIdentity(cx, Fresh(cx, before), c);
      hide Identity, Build, Recall, IdentityOf, Fresh;
      if i < |Sent(cx, before)| {
        SentAreTaken(cx, before, i);
      }
    }
  }

  /** No two samples of one envelope share an identity. */
  lemma {:induction false} IdentitiesDiffer(cx: Context, cells: seq<Cell>, i: nat, j: nat)
    requires i < j < |Sent(cx, cells)|
    ensures var s, t := Sent(cx, cells)[i], Sent(cx, cells)[j];
      Identity(s.desc.fqName, s.labelValues) != Identity(t.desc.fqName, t.labelValues)
  {
    var before, c := cells[..|cells| - 1], cells[|cells| - 1];
    RecallKeepsIdentity(cx, Fresh(cx, before), c);
    hide Identity, Build, Recall, IdentityOf, Fresh;
    if j < |Sent(cx, before)| {
      IdentitiesDiffer(cx, before, i, j);
    } else {
      SentAreTaken(cx, before, i);
    }
  }

  /** No two samples of one envelope share the name and the whole label set. */
  lemma {:induction false} NoTwins(cx: Context, cells: seq<Cell>, i: nat, j: nat)
    requires i < j < |Sent(cx, cells)|
    ensures var s, t := Sent(cx, cells)[i], Sent(cx, cells)[j];
      !(s.desc.fqName == t.desc.fqName && s.desc.labelKeys == t.desc.labelKeys && s.labelValues == t.labelValues)
  {
    IdentitiesDiffer(cx, cells, i, j);
    hide *;
  }
}
