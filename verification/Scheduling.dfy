/**
 * When a source's loop fetches a metric. A timeline is what the loop leaves behind: for every
 * iteration its start and end, the names that could be fetched in it, and the fetches it recorded.
 * Both the database loop and the Prometheus loop produce such timelines.
 */
module Scheduling {

  /** Times are nanoseconds, intervals are whole seconds. */
  const SECOND := 1_000_000_000

  /** `ready` holds the names whose fetch is recorded if it is due. */
  datatype Iter = Iter(now: int, end: int, ready: set<string>, rec: map<string, int>)

  /** The remembered fetch times after a timeline. */
  function LastFetch(its: seq<Iter>): map<string, int> {
    if its == [] then map[] else LastFetch(its[..|its| - 1]) + its[|its| - 1].rec
  }

  function NameSet(ns: seq<string>): set<string> {
    set i | 0 <= i < |ns| :: ns[i]
  }

  lemma {:induction false} NameSetMore(ns: seq<string>, n: string)
    ensures NameSet(ns + [n]) == NameSet(ns) + {n}
  {
    assert (ns + [n])[|ns|] == n;
    forall m | m in NameSet(ns) ensures m in NameSet(ns + [n]) {
      var i :| 0 <= i < |ns| && ns[i] == m;
      assert (ns + [n])[i] == m;
    }
  }

  /** The same time for all the names. */
  function AllAt(names: set<string>, at: int): map<string, int> {
    map n | n in names :: at
  }

  lemma {:induction false} AllAtMore(names: set<string>, n: string, at: int)
    ensures AllAt(names + {n}, at) == AllAt(names, at)[n := at]
  {
  }

  predicate Elapsed(last: map<string, int>, now: int, interval: int, n: string) {
    !(n in last && now - last[n] < interval * SECOND)
  }

  predicate Due(active: map<string, int>, last: map<string, int>, now: int, n: string) {
    n in active && active[n] > 0 && Elapsed(last, now, active[n], n)
  }

  ghost predicate TimesInside(it: Iter) {
    it.now <= it.end && forall n :: n in it.rec ==> it.now <= it.rec[n] <= it.end
  }

  ghost predicate FetchesDue(active: map<string, int>, last: map<string, int>, it: Iter) {
    forall n :: n in active && active[n] > 0 ==> (n in it.rec <==> n in it.ready && Due(active, last, it.now, n))
  }

  /** Every iteration fetches what is due and sleeps a whole tick of `g` seconds. */
  ghost predicate Legal(its: seq<Iter>, active: map<string, int>, g: int) {
    its == [] ||
    var k := |its| - 1;
    Legal(its[..k], active, g) && TimesInside(its[k]) && FetchesDue(active, LastFetch(its[..k]), its[k]) &&
    (k > 0 ==> its[k].now >= its[k - 1].end + g * SECOND)
  }

  lemma {:induction false} LegalPrefix(its: seq<Iter>, active: map<string, int>, g: int, k: nat)
    requires Legal(its, active, g) && k <= |its|
    ensures Legal(its[..k], active, g)
  {
    if k < |its| {
      LegalPrefix(its[..|its| - 1], active, g, k);
      assert its[..|its| - 1][..k] == its[..k];
    } else {
      assert its[..k] == its;
    }
  }

  lemma {:induction false} LegalAt(its: seq<Iter>, active: map<string, int>, g: int, k: nat)
    requires Legal(its, active, g) && k < |its|
    ensures TimesInside(its[k]) && FetchesDue(active, LastFetch(its[..k]), its[k])
    ensures k > 0 ==> its[k].now >= its[k - 1].end + g * SECOND
  {
    LegalPrefix(its, active, g, k + 1);
    assert its[..k + 1][..k] == its[..k];
  }

  /** Each further iteration starts at least one more tick later. */
  lemma {:induction false} TicksPass(its: seq<Iter>, active: map<string, int>, g: int, i: nat, j: nat)
    requires Legal(its, active, g) && i < j < |its| && g >= 0
    ensures its[j].now >= its[i].end + (j - i) * g * SECOND
    decreases j
  {
    LegalAt(its, active, g, j);
    if i + 1 < j {
      TicksPass(its, active, g, i, j - 1);
      LegalAt(its, active, g, j - 1);
      assert (j - i) * g == (j - 1 - i) * g + g;
    }
  }

  lemma {:induction false} LastStep(its: seq<Iter>, j: nat, n: string)
    requires j < |its|
    ensures n in LastFetch(its[..j + 1]) <==> n in its[j].rec || n in LastFetch(its[..j])
    ensures n in its[j].rec ==> LastFetch(its[..j + 1])[n] == its[j].rec[n]
    ensures n !in its[j].rec && n in LastFetch(its[..j]) ==> LastFetch(its[..j + 1])[n] == LastFetch(its[..j])[n]
  {
    assert its[..j + 1][..j] == its[..j];
  }

  lemma {:induction false} Later(its: seq<Iter>, active: map<string, int>, g: int, i: nat, j: nat, n: string)
    requires Legal(its, active, g) && i < j < |its| && g >= 0 && n in its[i].rec && n in its[j].rec
    ensures its[i].rec[n] <= its[j].rec[n]
  {
    hide Legal, FetchesDue;
    LegalAt(its, active, g, i);
    LegalAt(its, active, g, j);
    TicksPass(its, active, g, i, j);
    Scale(0, j - i, g);
  }

  lemma {:induction false} LastNoOlder(its: seq<Iter>, active: map<string, int>, g: int, i: nat, j: nat, n: string)
    requires Legal(its, active, g) && i < j <= |its| && g >= 0 && n in its[i].rec
    ensures n in LastFetch(its[..j]) && LastFetch(its[..j])[n] >= its[i].rec[n]
    decreases j
  {
    LastStep(its, j - 1, n);
    if i < j - 1 {
      hide *;
      LastNoOlder(its, active, g, i, j - 1, n);
      if n in its[j - 1].rec {
        Later(its, active, g, i, j - 1, n);
      }
    }
  }

  /** No metric is fetched again before its interval has passed since its recorded fetch. */
  lemma {:induction false} NeverEarly(its: seq<Iter>, active: map<string, int>, g: int, i: nat, j: nat, n: string)
    requires Legal(its, active, g) && i < j < |its| && g >= 0
    requires n in active && active[n] > 0 && n in its[i].rec && n in its[j].rec
    ensures its[j].rec[n] >= its[j].now >= its[i].rec[n] + active[n] * SECOND
  {
    LastNoOlder(its, active, g, i, j, n);
    LegalAt(its, active, g, j);
  }

  ghost predicate FetchedIn(its: seq<Iter>, i: int, j: int, n: string) {
    exists k :: 0 <= i < k <= j < |its| && n in its[k].rec
  }

  lemma {:induction false} LastKept(its: seq<Iter>, i: nat, j: nat, n: string)
    requires i < j < |its| && n in its[i].rec && !FetchedIn(its, i, j - 1, n)
    ensures n in LastFetch(its[..j]) && LastFetch(its[..j])[n] == its[i].rec[n]
    decreases j
  {
    LastStep(its, j - 1, n);
    if i < j - 1 {
      LastKept(its, i, j - 1, n);
    }
  }

  /**
   * A metric is fetched again within as many iterations as its interval holds ticks: at the latest
   * in the first iteration from then on in which it is ready.
   */
  lemma {:induction false} FetchedWithin(its: seq<Iter>, active: map<string, int>, g: int, i: nat, j: nat, n: string)
    requires Legal(its, active, g) && g > 0
    requires n in active && active[n] > 0 && active[n] % g == 0
    requires i < |its| && n in its[i].rec
    requires i + active[n] / g <= j < |its| && n in its[j].ready
    ensures FetchedIn(its, i, j, n)
  {
    var d := active[n];
    assert d / g >= 1 && d / g * g == d by {
      assert d == d / g * g + d % g;
    }
    if !FetchedIn(its, i, j - 1, n) {
      hide Legal, LastFetch;
      LastKept(its, i, j, n);
      LegalAt(its, active, g, i);
      LegalAt(its, active, g, j);
      TicksPass(its, active, g, i, j);
      Scale(d / g, j - i, g);
      assert Due(active, LastFetch(its[..j]), its[j].now, n);
    }
  }

  lemma {:induction false} Scale(a: int, b: int, g: int)
    requires a <= b && g >= 0
    ensures a * g <= b * g
  {
  }

  /** A metric never fetched before is fetched in the first iteration in which it is ready. */
  lemma {:induction false} FirstFetch(its: seq<Iter>, active: map<string, int>, g: int, j: nat, n: string)
    requires Legal(its, active, g) && j < |its|
    requires n in active && active[n] > 0 && n in its[j].ready
    ensures exists k :: 0 <= k <= j && n in its[k].rec
  {
    LegalAt(its, active, g, j);
    if n in LastFetch(its[..j]) {
      RecordedBefore(its, j, n);
    }
  }

  lemma {:induction false} RecordedBefore(its: seq<Iter>, j: nat, n: string)
    requires j <= |its| && n in LastFetch(its[..j])
    ensures exists k :: 0 <= k < j && n in its[k].rec
  {
    if j > 0 {
      LastStep(its, j - 1, n);
      if n !in its[j - 1].rec {
        RecordedBefore(its, j - 1, n);
      }
    }
  }
}
