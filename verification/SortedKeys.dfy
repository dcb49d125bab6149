/** The one lexicographic order of a set of strings. */
module SortedKeys {
  import opened Strings

  /** Ascending without repetition. */
  ghost predicate Ascending(s: seq<string>) {
    forall i, j :: 0 <= i < j < |s| ==> LexLe(s[i], s[j]) && s[i] != s[j]
  }

  ghost predicate Lists(s: seq<string>, keys: set<string>) {
    forall n :: n in s <==> n in keys
  }

  /** The position before the first element that does not precede `n`. */
  method Place(s: seq<string>, n: string) returns (k: nat)
    requires Ascending(s) && n !in s
    ensures k <= |s|
    ensures forall i :: 0 <= i < k ==> LexLe(s[i], n)
    ensures forall i :: k <= i < |s| ==> LexLe(n, s[i])
  {
    k := 0;
    while k < |s| && LexLe(s[k], n)
      invariant k <= |s|
      invariant forall i :: 0 <= i < k ==> LexLe(s[i], n)
    {
      k := k + 1;
    }
    hide LexLe;
    forall i | k <= i < |s| ensures LexLe(n, s[i]) {
      LexTotal(s[k], n);
      if k < i {
        LexTransitive(n, s[k], s[i]);
      }
    }
  }

  lemma {:induction false} Inserted(s: seq<string>, n: string, k: nat, keys: set<string>)
    requires Ascending(s) && Lists(s, keys) && n !in keys && k <= |s|
    requires forall i :: 0 <= i < k ==> LexLe(s[i], n)
    requires forall i :: k <= i < |s| ==> LexLe(n, s[i])
    ensures Ascending(s[..k] + [n] + s[k..]) && Lists(s[..k] + [n] + s[k..], keys + {n})
  {
    hide LexLe;
    var t := s[..k] + [n] + s[k..];
    assert n !in s;
    forall i | 0 <= i < |t| ensures t[i] == if i < k then s[i] else if i == k then n else s[i - 1] {
    }
    forall m ensures m in t <==> m in keys || m == n {
      if m in s {
        var i :| 0 <= i < |s| && s[i] == m;
        assert t[if i < k then i else i + 1] == m;
      }
      assert t[k] == n;
    }
  }

  /** slices.Sorted over the keys of a map, which come in any order. */
  method SortKeys(keys: set<string>) returns (s: seq<string>)
    ensures Ascending(s) && Lists(s, keys)
  {
    s := [];
    var todo := keys;
    while todo != {}
      invariant todo <= keys
      invariant Ascending(s) && Lists(s, keys - todo)
      decreases |todo|
    {
      var n :| n in todo;
      var k := Place(s, n);
      Inserted(s, n, k, keys - todo);
      hide *;
      s := s[..k] + [n] + s[k..];
      assert keys - (todo - {n}) == keys - todo + {n};
      todo := todo - {n};
    }
    assert keys - todo == keys;
  }

  /** There is only one such order. */
  lemma {:induction false} OnlyOne(s: seq<string>, t: seq<string>, keys: set<string>)
    requires Ascending(s) && Lists(s, keys) && Ascending(t) && Lists(t, keys)
    ensures s == t
  {
    if s == [] {
      EmptyLists(t, keys);
    } else {
      EmptyLists(s, keys);
      SameHead(s, t, keys);
      TailLists(s, keys);
      TailLists(t, keys);
      OnlyOne(s[1..], t[1..], keys - {s[0]});
      hide *;
      assert s == [s[0]] + s[1..] && t == [t[0]] + t[1..];
    }
  }

  lemma {:induction false} EmptyLists(t: seq<string>, keys: set<string>)
    requires Lists(t, keys)
    ensures t == [] <==> keys == {}
  {
    if t != [] {
      assert t[0] in t;
    }
  }

  lemma {:induction false} SameHead(s: seq<string>, t: seq<string>, keys: set<string>)
    requires Ascending(s) && Lists(s, keys) && Ascending(t) && Lists(t, keys) && s != [] && t != []
    ensures s[0] == t[0]
  {
    hide LexLe;
    assert s[0] in s && t[0] in t;
    var i :| 0 <= i < |t| && t[i] == s[0];
    var j :| 0 <= j < |s| && s[j] == t[0];
    if i > 0 && j > 0 {
      LexAntisymmetric(s[0], t[0]);
    }
  }

  lemma {:induction false} TailLists(s: seq<string>, keys: set<string>)
    requires Ascending(s) && Lists(s, keys) && s != []
    ensures Ascending(s[1..]) && Lists(s[1..], keys - {s[0]})
  {
    hide LexLe;
    forall n ensures n in s[1..] <==> n in keys && n != s[0] {
      if n in s && n != s[0] {
        var i :| 0 <= i < |s| && s[i] == n;
        assert s[1..][i - 1] == n;
      }
      if n in s[1..] {
        var i :| 0 <= i < |s[1..]| && s[1..][i] == n;
        assert s[i + 1] == n;
      }
    }
  }

  lemma {:induction false} Exists(keys: set<string>) returns (s: seq<string>)
    ensures Ascending(s) && Lists(s, keys)
    decreases |keys|
  {
    if keys == {} {
      s := [];
    } else {
      var n :| n in keys;
      var t := Exists(keys - {n});
      var k := Position(t, n);
      Inserted(t, n, k, keys - {n});
      hide *;
      s := t[..k] + [n] + t[k..];
      assert keys == keys - {n} + {n};
    }
  }

  lemma {:induction false} Position(s: seq<string>, n: string) returns (k: nat)
    requires Ascending(s)
    ensures k <= |s|
    ensures forall i :: 0 <= i < k ==> LexLe(s[i], n)
    ensures forall i :: k <= i < |s| ==> LexLe(n, s[i])
  {
    hide LexLe;
    if s == [] || LexLe(s[|s| - 1], n) {
      k := |s|;
      forall i | 0 <= i < |s| ensures LexLe(s[i], n) {
        if i < |s| - 1 {
          LexTransitive(s[i], s[|s| - 1], n);
        }
      }
    } else {
      LexTotal(s[|s| - 1], n);
      k := Position(s[..|s| - 1], n);
    }
  }

  /** The keys in their order. */
  ghost function Sorted(keys: set<string>): (s: seq<string>)
    ensures Ascending(s) && Lists(s, keys)
  {
    assert exists t: seq<string> :: Ascending(t) && Lists(t, keys) by {
      var t := Exists(keys);
    }
    var s: seq<string> :| Ascending(s) && Lists(s, keys);
    s
  }
}
