/** Go string operations the collector relies on: ordering, joining and splitting. */
module Strings {

  /** Go's `<=` on strings: lexicographic order. */
  predicate LexLe(a: string, b: string) {
    if a == [] then true
    else if b == [] then false
    else if a[0] == b[0] then LexLe(a[1..], b[1..])
    else a[0] < b[0]
  }

  lemma {:induction false} LexTotal(a: string, b: string)
    ensures LexLe(a, b) || LexLe(b, a)
  {
    if a != [] && b != [] && a[0] == b[0] {
      LexTotal(a[1..], b[1..]);
    }
  }

  lemma {:induction false} LexAntisymmetric(a: string, b: string)
    requires LexLe(a, b) && LexLe(b, a)
    ensures a == b
  {
    if a != [] && b != [] {
      LexAntisymmetric(a[1..], b[1..]);
      assert a == [a[0]] + a[1..] && b == [b[0]] + b[1..];
    }
  }

  lemma {:induction false} LexTransitive(a: string, b: string, c: string)
    requires LexLe(a, b) && LexLe(b, c)
    ensures LexLe(a, c)
  {
    if a != [] && a[0] == b[0] == c[0] {
      LexTransitive(a[1..], b[1..], c[1..]);
    }
  }

  /** strings.Join. */
  function Join(parts: seq<string>, sep: string): string {
    if parts == [] then ""
    else if |parts| == 1 then parts[0]
    else parts[0] + sep + Join(parts[1..], sep)
  }

  /** `sep` occurs in `s` at `k`. */
  predicate At(s: string, sep: string, k: nat) {
    k + |sep| <= |s| && s[k..k + |sep|] == sep
  }

  /** `r` is the leftmost occurrence of `sep` at or after `i`, or |s| when there is none. */
  ghost predicate Leftmost(s: string, sep: string, i: nat, r: nat) {
    i <= r <= |s| && (r < |s| ==> At(s, sep, r)) && forall k: nat :: i <= k < r ==> !At(s, sep, k)
  }

  function Index(s: string, sep: string, i: nat): (r: nat)
    requires i <= |s|
    ensures i <= r <= |s|
    ensures r < |s| ==> r + |sep| <= |s|
    decreases |s| - i
  {
    if i == |s| || At(s, sep, i) then i else Index(s, sep, i + 1)
  }

  lemma {:induction false} IndexIsLeftmost(s: string, sep: string, i: nat)
    requires i <= |s|
    ensures Leftmost(s, sep, i, Index(s, sep, i))
    decreases |s| - i
  {
    hide At;
    if i < |s| && !At(s, sep, i) {
      IndexIsLeftmost(s, sep, i + 1);
    }
  }

  lemma {:induction false} LeftmostIsIndex(s: string, sep: string, i: nat, r: nat)
    requires Leftmost(s, sep, i, r)
    ensures Index(s, sep, i) == r
  {
    hide At;
    IndexIsLeftmost(s, sep, i);
  }

  /** The pieces of `s` from `p` on, cut at the leftmost, non-overlapping occurrences of `sep`. */
  function SplitFrom(s: string, sep: string, p: nat): (r: seq<string>)
    requires sep != "" && p <= |s|
    ensures r != []
    decreases |s| - p
  {
    var i := Index(s, sep, p);
    if i == |s| then [s[p..]] else [s[p..i]] + SplitFrom(s, sep, i + |sep|)
  }

  lemma {:induction false} SplitUnfold(s: string, sep: string, p: nat)
    requires sep != "" && p <= |s|
    ensures var i := Index(s, sep, p);
      SplitFrom(s, sep, p) == if i == |s| then [s[p..]] else [s[p..i]] + SplitFrom(s, sep, i + |sep|)
  {
    hide At;
  }

  /** strings.Split for a non-empty separator. */
  function Split(s: string, sep: string): (r: seq<string>)
    requires sep != ""
    ensures r != []
  {
    SplitFrom(s, sep, 0)
  }

  /** The parts never contain the first character of the separator. */
  predicate SeparatorFree(parts: seq<string>, sep: string)
    requires sep != ""
  {
    forall i :: 0 <= i < |parts| ==> sep[0] !in parts[i]
  }

  lemma {:induction false} AtStartsWith(s: string, sep: string, k: nat)
    requires sep != "" && k < |s| && s[k] != sep[0]
    ensures !At(s, sep, k)
  {
    if k + |sep| <= |s| {
      assert s[k..k + |sep|][0] == s[k];
    }
  }

  /** The leftmost separator of `head + sep + tail` is the one that was put there. */
  lemma {:induction false} IndexAtSeparator(head: string, sep: string, tail: string)
    requires sep != "" && sep[0] !in head
    ensures Index(head + sep + tail, sep, 0) == |head|
  {
    var s := head + sep + tail;
    forall k: nat | k < |head| ensures !At(s, sep, k) {
      assert s[k] == head[k];
      AtStartsWith(s, sep, k);
    }
    assert s[|head|..|head| + |sep|] == sep;
    LeftmostIsIndex(s, sep, 0, |head|);
  }

  lemma {:induction false} IndexAbsent(s: string, sep: string)
    requires sep != "" && sep[0] !in s
    ensures Index(s, sep, 0) == |s|
  {
    forall k: nat | k < |s| ensures !At(s, sep, k) {
      AtStartsWith(s, sep, k);
    }
    LeftmostIsIndex(s, sep, 0, |s|);
  }

  lemma {:induction false} IndexShift(pre: string, t: string, sep: string, q: nat)
    requires q <= |t|
    ensures Index(pre + t, sep, |pre| + q) == |pre| + Index(t, sep, q)
    decreases |t| - q
  {
    assert At(pre + t, sep, |pre| + q) <==> At(t, sep, q) by {
      if q + |sep| <= |t| {
        assert (pre + t)[|pre| + q..|pre| + q + |sep|] == t[q..q + |sep|];
      }
    }
    hide At;
    if q < |t| && !At(t, sep, q) {
      IndexShift(pre, t, sep, q + 1);
    }
  }

  /** Splitting does not look at what comes before the position it starts from. */
  lemma {:induction false} SplitShift(pre: string, t: string, sep: string, q: nat)
    requires sep != "" && q <= |t|
    ensures SplitFrom(pre + t, sep, |pre| + q) == SplitFrom(t, sep, q)
    decreases |t| - q
  {
    hide *;
    IndexShift(pre, t, sep, q);
    SplitUnfold(t, sep, q);
    SplitUnfold(pre + t, sep, |pre| + q);
    var i := Index(t, sep, q);
    if i < |t| {
      SplitShift(pre, t, sep, i + |sep|);
      assert (pre + t)[|pre| + q..|pre| + i] == t[q..i];
    } else {
      assert (pre + t)[|pre| + q..] == t[q..];
    }
  }

  /** No separator begins inside the part, not even one that ends in the separator behind it. */
  predicate Delimited(part: string, sep: string) {
    Index(part + sep, sep, 0) == |part|
  }

  /** The parts can be told apart again once joined. */
  predicate Separable(parts: seq<string>, sep: string) {
    parts != [] && (forall i :: 0 <= i < |parts| - 1 ==> Delimited(parts[i], sep)) &&
    Index(parts[|parts| - 1], sep, 0) == |parts[|parts| - 1]|
  }

  /** What follows a separator does not move the leftmost one. */
  lemma {:induction false} IndexPrefix(head: string, sep: string, rest: string)
    ensures Index(head + sep + rest, sep, 0) == Index(head + sep, sep, 0) <= |head|
  {
    var s, t := head + sep + rest, head + sep;
    IndexBefore(head, sep, "");
    assert t + "" == t;
    forall k: nat | k <= |head| ensures At(s, sep, k) <==> At(t, sep, k) {
      assert s[k..k + |sep|] == t[k..k + |sep|];
    }
    var i := Index(t, sep, 0);
    IndexIsLeftmost(t, sep, 0);
    if sep == "" {
      assert At(t, sep, 0) && At(s, sep, 0);
    }
    assert Leftmost(s, sep, 0, i) by {
      assert i < |s| ==> At(t, sep, i);
    }
    LeftmostIsIndex(s, sep, 0, i);
  }

  lemma {:induction false} SplitAlone(s: string, sep: string)
    requires sep != ""
    ensures Index(s, sep, 0) == |s| ==> Split(s, sep) == [s]
    ensures Index(s, sep, 0) < |s| ==> Split(s, sep)[0] != s
  {
    hide *;
    SplitIsFromStart(s, sep);
    SplitUnfold(s, sep, 0);
    assert s[0..] == s;
    assert Index(s, sep, 0) < |s| ==> |s[0..Index(s, sep, 0)]| < |s|;
  }

  lemma {:induction false} DelimitedMeans(head: string, sep: string)
    ensures Delimited(head, sep) <==> Index(head + sep, sep, 0) == |head|
  {
    hide Index;
  }

  lemma {:induction false} SeparableOne(parts: seq<string>, sep: string)
    requires |parts| == 1
    ensures Join(parts, sep) == parts[0] && (Separable(parts, sep) <==> Index(parts[0], sep, 0) == |parts[0]|)
  {
    hide Index;
  }

  lemma {:induction false} JoinUnfold(parts: seq<string>, sep: string)
    requires |parts| > 1
    ensures Join(parts, sep) == parts[0] + sep + Join(parts[1..], sep)
  {
  }

  /** The first part comes back exactly when it is delimited, and then the rest is split by itself. */
  lemma {:induction false} SplitFirst(head: string, sep: string, rest: string)
    requires sep != ""
    ensures Delimited(head, sep) ==> Split(head + sep + rest, sep) == [head] + Split(rest, sep)
    ensures !Delimited(head, sep) ==> Split(head + sep + rest, sep)[0] != head
  {
    hide *;
    var s := head + sep + rest;
    DelimitedMeans(head, sep);
    SplitIsFromStart(s, sep);
    SplitIsFromStart(rest, sep);
    IndexPrefix(head, sep, rest);
    SplitUnfold(s, sep, 0);
    SplitShift(head + sep, rest, sep, 0);
    assert s[0..|head|] == head;
    assert |s[0..Index(s, sep, 0)]| == Index(s, sep, 0);
  }

  lemma {:induction false} SeparableTail(parts: seq<string>, sep: string)
    requires |parts| > 1
    ensures Separable(parts, sep) <==> Delimited(parts[0], sep) && Separable(parts[1..], sep)
  {
    hide Delimited, Index;
    assert forall i :: 0 <= i < |parts| - 1 ==> parts[1..][i] == parts[i + 1];
    if Delimited(parts[0], sep) && Separable(parts[1..], sep) {
      forall i | 0 <= i < |parts| - 1 ensures Delimited(parts[i], sep) {
        assert i > 0 ==> parts[i] == parts[1..][i - 1];
      }
    }
  }

  /** The first pieces of a joined identifier are its parts if and only if these are separable. */
  lemma {:induction false} FirstPiecesIff(parts: seq<string>, sep: string)
    requires sep != "" && parts != []
    ensures |Split(Join(parts, sep), sep)| >= |parts|
    ensures Split(Join(parts, sep), sep)[..|parts|] == parts <==> Separable(parts, sep)
    ensures Separable(parts, sep) ==> Split(Join(parts, sep), sep) == parts
  {
    hide *;
    SplitAtLeast(parts, sep);
    var s := Join(parts, sep);
    if |parts| == 1 {
      SeparableOne(parts, sep);
      SplitAlone(s, sep);
      assert parts == [s];
      assert Split(s, sep)[..1] == [Split(s, sep)[0]];
    } else {
      JoinUnfold(parts, sep);
      SplitFirst(parts[0], sep, Join(parts[1..], sep));
      SeparableTail(parts, sep);
      FirstPiecesIff(parts[1..], sep);
      SamePieces(parts, Split(s, sep), Split(Join(parts[1..], sep), sep));
    }
  }

  lemma {:induction false} SamePieces(parts: seq<string>, pieces: seq<string>, tail: seq<string>)
    requires parts != [] && |pieces| >= |parts| && |tail| >= |parts| - 1
    ensures pieces[0] != parts[0] ==> pieces[..|parts|] != parts
    ensures pieces == [parts[0]] + tail ==> (pieces[..|parts|] == parts <==> tail[..|parts| - 1] == parts[1..])
    ensures pieces == [parts[0]] + tail && tail == parts[1..] ==> pieces == parts
  {
    assert pieces[..|parts|][0] == pieces[0];
    if pieces == [parts[0]] + tail {
      assert pieces[..|parts|] == [parts[0]] + tail[..|parts| - 1];
      assert pieces[..|parts|][1..] == tail[..|parts| - 1];
      assert parts == [parts[0]] + parts[1..];
    }
  }

  /** Splitting a joined identifier gives back its parts if and only if these are separable. */
  lemma {:induction false} SplitJoinIff(parts: seq<string>, sep: string)
    requires sep != "" && parts != []
    ensures Split(Join(parts, sep), sep) == parts <==> Separable(parts, sep)
  {
    FirstPiecesIff(parts, sep);
    hide *;
    assert parts[..|parts|] == parts;
  }

  /** Parts without the separator's first character are separable. */
  lemma {:induction false} FreePartsSeparable(parts: seq<string>, sep: string)
    requires sep != "" && parts != [] && SeparatorFree(parts, sep)
    ensures Separable(parts, sep)
  {
    forall i | 0 <= i < |parts| - 1 ensures Delimited(parts[i], sep) {
      IndexAtSeparator(parts[i], sep, "");
      assert parts[i] + sep + "" == parts[i] + sep;
    }
    IndexAbsent(parts[|parts| - 1], sep);
  }

  /** Splitting a joined identifier gives back parts without the separator's first character. */
  lemma {:induction false} SplitJoin(parts: seq<string>, sep: string)
    requires sep != "" && parts != [] && SeparatorFree(parts, sep)
    ensures Split(Join(parts, sep), sep) == parts
  {
    hide *;
    FreePartsSeparable(parts, sep);
    SplitJoinIff(parts, sep);
  }

  lemma {:induction false} SplitOne(s: string, sep: string)
    requires sep != "" && sep[0] !in s
    ensures Split(s, sep) == [s]
  {
    IndexAbsent(s, sep);
    SplitAlone(s, sep);
  }

  lemma {:induction false} SplitHead(head: string, sep: string, rest: string)
    requires sep != "" && sep[0] !in head
    ensures Split(head + sep + rest, sep) == [head] + Split(rest, sep)
  {
    IndexAtSeparator(head, sep, "");
    assert head + sep + "" == head + sep;
    assert Delimited(head, sep);
    hide *;
    SplitFirst(head, sep, rest);
  }

  lemma {:induction false} PieceCount(s: string, sep: string, p: nat)
    requires sep != "" && p <= |s|
    ensures var i := Index(s, sep, p);
      |SplitFrom(s, sep, p)| == if i == |s| then 1 else 1 + |SplitFrom(s, sep, i + |sep|)|
  {
    hide *;
    SplitUnfold(s, sep, p);
  }

  lemma {:induction false} IndexMonotone(s: string, sep: string, p: nat, q: nat)
    requires p <= q <= |s|
    ensures Index(s, sep, p) <= Index(s, sep, q)
  {
    IndexIsLeftmost(s, sep, p);
    IndexIsLeftmost(s, sep, q);
    hide At, Index;
  }

  lemma {:induction false} IndexBefore(head: string, sep: string, rest: string)
    ensures Index(head + sep + rest, sep, 0) <= |head|
  {
    var s := head + sep + rest;
    assert At(s, sep, |head|) by {
      assert s[|head|..|head| + |sep|] == sep;
    }
    IndexIsLeftmost(s, sep, 0);
    hide At, Index;
  }

  /** Starting later never yields more pieces. */
  lemma {:induction false} FewerPiecesLater(s: string, sep: string, p: nat, q: nat)
    requires sep != "" && p <= q <= |s|
    ensures |SplitFrom(s, sep, q)| <= |SplitFrom(s, sep, p)|
    decreases |s| - p
  {
    hide *;
    IndexMonotone(s, sep, p, q);
    PieceCount(s, sep, p);
    PieceCount(s, sep, q);
    var j := Index(s, sep, q);
    if j < |s| {
      FewerPiecesLater(s, sep, Index(s, sep, p) + |sep|, j + |sep|);
    }
  }

  /** Whatever the parts contain, their joined form never splits into fewer pieces. */
  lemma {:induction false} SplitAtLeast(parts: seq<string>, sep: string)
    requires sep != "" && parts != []
    ensures |Split(Join(parts, sep), sep)| >= |parts|
  {
    if |parts| > 1 {
      assert Join(parts, sep) == parts[0] + sep + Join(parts[1..], sep);
      SplitAtLeast(parts[1..], sep);
      hide *;
      SplitMore(parts[0], sep, Join(parts[1..], sep));
    }
  }

  lemma {:induction false} SplitIsFromStart(s: string, sep: string)
    requires sep != ""
    ensures Split(s, sep) == SplitFrom(s, sep, 0)
  {
    hide SplitFrom;
  }

  lemma {:induction false} SplitMore(head: string, sep: string, rest: string)
    requires sep != ""
    ensures |Split(head + sep + rest, sep)| >= 1 + |Split(rest, sep)|
  {
    hide *;
    var s, pre := head + sep + rest, head + sep;
    SplitIsFromStart(s, sep);
    SplitIsFromStart(rest, sep);
    IndexBefore(head, sep, rest);
    var i := Index(s, sep, 0);
    PieceCount(s, sep, 0);
    SplitShift(pre, rest, sep, 0);
    FewerPiecesLater(s, sep, i + |sep|, |pre|);
  }

  /** A function named "a¤" with oid 1: the name holds no separator, yet the split moves its last character. */
  lemma {:induction false} SplitMovesCharacter()
    ensures Split(Join(["a¤", "1"], "¤¤¤"), "¤¤¤") == ["a", "¤1"]
    ensures Index("a¤", "¤¤¤", 0) == |"a¤"| && !Separable(["a¤", "1"], "¤¤¤")
  {
    var sep := "¤¤¤";
    assert Join(["1"], sep) == "1";
    assert ["a¤", "1"][1..] == ["1"];
    assert Join(["a¤", "1"], sep) == "a" + sep + "¤1";
    SplitHead("a", sep, "¤1");
    Shorter("¤1", sep);
    Shorter("a¤", sep);
    SplitAlone("¤1", sep);
    SplitJoinIff(["a¤", "1"], sep);
    assert ["a", "¤1"][0] != ["a¤", "1"][0];
  }

  lemma {:induction false} Shorter(s: string, sep: string)
    requires |s| < |sep|
    ensures Index(s, sep, 0) == |s|
  {
    LeftmostIsIndex(s, sep, 0, |s|);
  }
}
