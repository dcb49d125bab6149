/** The loop of one Prometheus source: every scrape is filtered by the interval of each family. */
module PromLoop {
  import opened Scheduling
  import opened Sequences
  import TickInterval

  const DEFAULT_SCRAPE_INTERVAL := 60

  /** The interval of a family; a family that is not configured has none. */
  function Interval(metrics: map<string, int>, n: string): int {
    if n in metrics then metrics[n] else 0
  }

  /** The family is held back until its interval has passed. */
  predicate Gated(scrapeAll: bool, metrics: map<string, int>, n: string) {
    !scrapeAll && Interval(metrics, n) > 0
  }

  predicate Passes(scrapeAll: bool, metrics: map<string, int>, last: map<string, int>, now: int, n: string) {
    Gated(scrapeAll, metrics, n) ==> Elapsed(last, now, Interval(metrics, n), n)
  }

  /** How often one scrape emits family `n`: a gated one at most once, any other as often as it occurs. */
  function Emissions(scrapeAll: bool, metrics: map<string, int>, last: map<string, int>, now: int, families: seq<string>, n: string): nat {
    if !Gated(scrapeAll, metrics, n) then multiset(families)[n]
    else if n in families && Elapsed(last, now, Interval(metrics, n), n) then 1
    else 0
  }

  ghost predicate EmitsExactly(scrapeAll: bool, metrics: map<string, int>, last: map<string, int>, now: int, families: seq<string>, out: seq<string>) {
    forall n :: multiset(out)[n] == Emissions(scrapeAll, metrics, last, now, families, n)
  }

  class PromReaper {
    var lastEmitted: map<string, int>
    var sent: seq<string>

    constructor ()
      ensures lastEmitted == map[] && sent == []
    {
      lastEmitted, sent := map[], [];
    }

    /** The families of one successful scrape. */
    method Emit(scrapeAll: bool, metrics: map<string, int>, now: int, families: seq<string>)
      modifies this
      ensures old(sent) <= sent
      ensures EmitsExactly(scrapeAll, metrics, old(lastEmitted), now, families, sent[|old(sent)|..])
      ensures lastEmitted == old(lastEmitted) + AllAt(NameSet(sent[|old(sent)|..]), now)
    {
      ghost var out := [];
      for i := 0 to |families|
        invariant sent == old(sent) + out
        invariant EmitsExactly(scrapeAll, metrics, old(lastEmitted), now, families[..i], out)
        invariant lastEmitted == old(lastEmitted) + AllAt(NameSet(out), now)
      {
        var n := families[i];
        assert families[..i + 1] == families[..i] + [n];
        PassesMeans(scrapeAll, metrics, old(lastEmitted), now, families[..i], out, n);
        EmitStep(scrapeAll, metrics, old(lastEmitted), now, families[..i], out, n);
        hide EmitsExactly, AllAt, NameSet, Passes;
        if Passes(scrapeAll, metrics, lastEmitted, now, n) {
          sent := sent + [n];
          lastEmitted := lastEmitted[n := now];
          out := out + [n];
        }
      }
      assert families[..|families|] == families;
      assert sent[|old(sent)|..] == out;
    }

    /**
     * The loop over any number of scrapes, with the metrics configured at each; whether everything is
     * emitted is decided by those configured at the start. `outs[i]` is what scrape `i` emits, judged by
     * the emissions of the scrapes before it, and nothing if it failed. With metrics that never change
     * the loop leaves a legal timeline behind, a whole scrape interval between two iterations.
     */
    method Reap(configured: map<string, int>, start: int, scrapes: seq<Scrape>)
      returns (its: seq<Iter>, ticks: seq<int>, ghost outs: seq<seq<string>>)
      requires lastEmitted == map[]
      modifies this
      ensures |its| == |scrapes| && ReadyAll(scrapes, its) && RunOk(configured == map[], start, scrapes, its, ticks, outs)
      ensures lastEmitted == LastFetch(its)
      ensures sent == old(sent) + Concat(outs)
      ensures forall g :: Fixed(scrapes, configured) && IsScrapeInterval(configured, g) ==> Legal(its, configured, g)
    {
      hide *;
      var scrapeAll := configured == map[];
      its, ticks, outs := [], [], [];
      var awake := start;
      TimelineInit(scrapeAll, start, scrapes);
      for i := 0 to |scrapes|
        invariant |its| == i && ReadyAll(scrapes, its) && RunOk(scrapeAll, start, scrapes, its, ticks, outs)
        invariant lastEmitted == LastFetch(its)
        invariant sent == old(sent) + Concat(outs)
        invariant |ticks| == |its| && awake == if its == [] then start else its[i - 1].end + ticks[i - 1] * SECOND
      {
        var now := awake + scrapes[i].delay;
        var base := sent;
        if scrapes[i].ok {
          Emit(scrapeAll, scrapes[i].metrics, now, scrapes[i].families);
        }
        var out := sent[|base|..];
        EmitsNow(scrapeAll, LastFetch(its), scrapes[i], now, out);
        IterRecords(its, scrapes[i], now, out);
        ReadyMore(scrapes, its, now, out);
        var tick := CalcScrapeInterval(scrapes[i].after);
        RunMore(scrapeAll, start, scrapes, its, ticks, outs, now, tick, out);
        ConcatMore(outs, out);
        its, ticks, outs := its + [IterOf(scrapes[i], now, out)], ticks + [tick], outs + [out];
        awake := now + scrapes[i].duration + tick * SECOND;
      }
      assert its[..|its|] == its;
      forall g | Fixed(scrapes, configured) && IsScrapeInterval(configured, g) ensures Legal(its, configured, g) {
        FixedRunIsLegal(configured, start, scrapes, its, ticks, outs, g, |its|);
      }
    }
  }

  /** Every configured interval is a whole number of scrape intervals. */
  ghost predicate IsScrapeInterval(metrics: map<string, int>, g: int) {
    if metrics == map[] then g == DEFAULT_SCRAPE_INTERVAL else TickInterval.IsTick(metrics, g)
  }

  method CalcScrapeInterval(metrics: map<string, int>) returns (g: int)
    ensures IsScrapeInterval(metrics, g) && (metrics == map[] ==> g == 60)
  {
    if metrics == map[] {
      return DEFAULT_SCRAPE_INTERVAL;
    }
    g := TickInterval.CalcTickInterval(metrics);
  }

  lemma {:induction false} ScrapeIntervalUnique(metrics: map<string, int>, g: int, g': int)
    requires IsScrapeInterval(metrics, g) && IsScrapeInterval(metrics, g')
    ensures g == g'
  {
    if metrics != map[] {
      TickInterval.TickUnique(metrics, g, g');
    }
  }

  /**
   * One scrape: its families if it succeeded, how late it comes and how long emitting takes, the metrics
   * configured during it and those configured after it.
   */
  datatype Scrape = Scrape(ok: bool, families: seq<string>, delay: nat, duration: nat, metrics: map<string, int>, after: map<string, int>)

  /** The configured metrics and their intervals never change. */
  ghost predicate Fixed(scrapes: seq<Scrape>, metrics: map<string, int>) {
    forall i :: 0 <= i < |scrapes| ==> scrapes[i].metrics == metrics && scrapes[i].after == metrics
  }

  function FamiliesOf(s: Scrape): set<string> {
    if s.ok then NameSet(s.families) else {}
  }

  ghost predicate ReadyAll(scrapes: seq<Scrape>, its: seq<Iter>) {
    |its| <= |scrapes| && forall i :: 0 <= i < |its| ==> its[i].ready == FamiliesOf(scrapes[i])
  }

  function IterOf(s: Scrape, now: int, out: seq<string>): Iter {
    Iter(now, now + s.duration, FamiliesOf(s), AllAt(NameSet(out), now))
  }

  lemma {:induction false} TimelineInit(scrapeAll: bool, start: int, scrapes: seq<Scrape>)
    ensures LastFetch([]) == map[] && ReadyAll(scrapes, [])
    ensures RunOk(scrapeAll, start, scrapes, [], [], []) && Concat<string>([]) == []
  {
  }

  /** What a scrape emits, given the emissions remembered before it. */
  ghost predicate ScrapeEmits(scrapeAll: bool, last: map<string, int>, s: Scrape, now: int, out: seq<string>) {
    if s.ok then EmitsExactly(scrapeAll, s.metrics, last, now, s.families, out) else out == []
  }

  lemma {:induction false} EmitsNow(scrapeAll: bool, last: map<string, int>, s: Scrape, now: int, out: seq<string>)
    requires if s.ok then EmitsExactly(scrapeAll, s.metrics, last, now, s.families, out) else out == []
    ensures ScrapeEmits(scrapeAll, last, s, now, out)
  {
    hide EmitsExactly;
  }

  /** When scrape `i` comes: late by its delay, a scrape interval after the end of the one before. */
  function StartOf(start: int, scrapes: seq<Scrape>, its: seq<Iter>, ticks: seq<int>, i: nat): int
    requires i < |scrapes| && i <= |its| == |ticks|
  {
    (if i == 0 then start else its[i - 1].end + ticks[i - 1] * SECOND) + scrapes[i].delay
  }

  /** Scrape `i` emits what its metrics let through and leaves iteration `i` of the timeline. */
  ghost predicate RunStep(scrapeAll: bool, start: int, scrapes: seq<Scrape>, its: seq<Iter>, ticks: seq<int>, outs: seq<seq<string>>, i: nat)
    requires i < |outs| == |its| == |ticks| <= |scrapes|
  {
    && its[i] == IterOf(scrapes[i], StartOf(start, scrapes, its, ticks, i), outs[i])
    && ScrapeEmits(scrapeAll, LastFetch(its[..i]), scrapes[i], its[i].now, outs[i])
    && IsScrapeInterval(scrapes[i].after, ticks[i])
  }

  ghost predicate RunOk(scrapeAll: bool, start: int, scrapes: seq<Scrape>, its: seq<Iter>, ticks: seq<int>, outs: seq<seq<string>>) {
    |outs| == |its| == |ticks| <= |scrapes| && forall i :: 0 <= i < |its| ==> RunStep(scrapeAll, start, scrapes, its, ticks, outs, i)
  }

  lemma {:induction false} RunMore(scrapeAll: bool, start: int, scrapes: seq<Scrape>, its: seq<Iter>, ticks: seq<int>, outs: seq<seq<string>>,
                                   now: int, tick: int, out: seq<string>)
    requires RunOk(scrapeAll, start, scrapes, its, ticks, outs) && |its| < |scrapes|
    requires |its| == |ticks| && now == (if its == [] then start else its[|its| - 1].end + ticks[|its| - 1] * SECOND) + scrapes[|its|].delay
    requires ScrapeEmits(scrapeAll, LastFetch(its), scrapes[|its|], now, out) && IsScrapeInterval(scrapes[|its|].after, tick)
    ensures RunOk(scrapeAll, start, scrapes, its + [IterOf(scrapes[|its|], now, out)], ticks + [tick], outs + [out])
  {
    hide LastFetch, ScrapeEmits, AllAt, FamiliesOf, NameSet, IsScrapeInterval;
    var its', ticks', outs' := its + [IterOf(scrapes[|its|], now, out)], ticks + [tick], outs + [out];
    forall i | 0 <= i < |its'| ensures RunStep(scrapeAll, start, scrapes, its', ticks', outs', i) {
      if i < |its| {
        assert RunStep(scrapeAll, start, scrapes, its, ticks, outs, i);
        assert its'[..i] == its[..i];
      } else {
        assert its'[..i] == its;
      }
    }
  }

  /** The emissions of a scrape are remembered. */
  lemma {:induction false} IterRecords(its: seq<Iter>, s: Scrape, now: int, out: seq<string>)
    ensures LastFetch(its + [IterOf(s, now, out)]) == LastFetch(its) + AllAt(NameSet(out), now)
    ensures out == [] ==> LastFetch(its + [IterOf(s, now, out)]) == LastFetch(its)
    ensures IterOf(s, now, out).now == now
  {
    assert (its + [IterOf(s, now, out)])[..|its|] == its;
  }

  /** A run whose metrics never change leaves a legal timeline. */
  lemma {:induction false} FixedRunIsLegal(metrics: map<string, int>, start: int, scrapes: seq<Scrape>, its: seq<Iter>, ticks: seq<int>,
                                           outs: seq<seq<string>>, g: int, n: nat)
    requires RunOk(metrics == map[], start, scrapes, its, ticks, outs) && Fixed(scrapes, metrics) && IsScrapeInterval(metrics, g)
    requires n <= |its|
    ensures Legal(its[..n], metrics, g)
  {
    hide IterOf, IsScrapeInterval, ScrapeEmits, LastFetch;
    if n > 0 {
      FixedRunIsLegal(metrics, start, scrapes, its, ticks, outs, g, n - 1);
      assert RunStep(metrics == map[], start, scrapes, its, ticks, outs, n - 1);
      if n > 1 {
        assert RunStep(metrics == map[], start, scrapes, its, ticks, outs, n - 2);
        ScrapeIntervalUnique(metrics, g, ticks[n - 2]);
      }
      var now := StartOf(start, scrapes, its, ticks, n - 1);
      IterRecords(its[..n - 1], scrapes[n - 1], now, outs[n - 1]);
      IterKeepsLegal(its[..n - 1], metrics, g, scrapes[n - 1], now, outs[n - 1]);
      assert its[..n] == its[..n - 1] + [its[n - 1]];
    }
  }

  lemma {:induction false} ReadyMore(scrapes: seq<Scrape>, its: seq<Iter>, now: int, out: seq<string>)
    requires ReadyAll(scrapes, its) && |its| < |scrapes|
    ensures ReadyAll(scrapes, its + [IterOf(scrapes[|its|], now, out)])
    ensures IterOf(scrapes[|its|], now, out).end == now + scrapes[|its|].duration
  {
  }

  lemma {:induction false} EmittedIff(metrics: map<string, int>, last: map<string, int>, s: Scrape, now: int, out: seq<string>, n: string)
    requires ScrapeEmits(metrics == map[], last, s, now, out) && s.metrics == metrics
    requires n in metrics && metrics[n] > 0
    ensures n in out <==> n in FamiliesOf(s) && Elapsed(last, now, metrics[n], n)
  {
    if s.ok {
      assert multiset(out)[n] == Emissions(false, metrics, last, now, s.families, n);
      assert n in s.families <==> n in FamiliesOf(s);
    }
  }

  lemma {:induction false} IterKeepsLegal(its: seq<Iter>, metrics: map<string, int>, g: int, s: Scrape, now: int, out: seq<string>)
    requires Legal(its, metrics, g)
    requires ScrapeEmits(metrics == map[], LastFetch(its), s, now, out) && s.metrics == metrics
    requires its != [] ==> now >= its[|its| - 1].end + g * SECOND
    ensures Legal(its + [IterOf(s, now, out)], metrics, g)
  {
    var it := IterOf(s, now, out);
    assert (its + [it])[..|its|] == its;
    forall n | n in metrics && metrics[n] > 0 ensures n in it.rec <==> n in it.ready && Due(metrics, LastFetch(its), now, n) {
      EmittedIff(metrics, LastFetch(its), s, now, out, n);
    }
    hide EmitsExactly;
    assert FetchesDue(metrics, LastFetch(its), it);
    assert TimesInside(it);
  }

  /**
   * How often a scrape emits a family, said on what was scraped: one with an interval once, if the interval has passed;
   * one without, or any family when nothing is configured, as often as it was scraped.
   */
  lemma {:induction false} EmitsMean(scrapeAll: bool, metrics: map<string, int>, last: map<string, int>, now: int,
                                     families: seq<string>, out: seq<string>, n: string)
    requires EmitsExactly(scrapeAll, metrics, last, now, families, out)
    ensures scrapeAll || n !in metrics || metrics[n] <= 0 ==> multiset(out)[n] == multiset(families)[n]
    ensures !scrapeAll && n in metrics && metrics[n] > 0 ==>
      multiset(out)[n] == if n in families && (n in last ==> now - last[n] >= metrics[n] * 1_000_000_000) then 1 else 0
  {
    assert multiset(out)[n] == Emissions(scrapeAll, metrics, last, now, families, n);
  }

  /** All families of the successful scrapes. */
  function Scraped(scrapes: seq<Scrape>): seq<string> {
    if scrapes == [] then []
    else Scraped(scrapes[..|scrapes| - 1]) + if scrapes[|scrapes| - 1].ok then scrapes[|scrapes| - 1].families else []
  }

  /** When nothing is configured a run sends every family of every successful scrape, as often as it was scraped. */
  lemma {:induction false} ScrapeAllSendsAll(start: int, scrapes: seq<Scrape>, its: seq<Iter>, ticks: seq<int>, outs: seq<seq<string>>, n: nat)
    requires RunOk(true, start, scrapes, its, ticks, outs) && n <= |its|
    ensures multiset(Concat(outs[..n])) == multiset(Scraped(scrapes[..n]))
  {
    if n > 0 {
      ScrapeAllSendsAll(start, scrapes, its, ticks, outs, n - 1);
      assert RunStep(true, start, scrapes, its, ticks, outs, n - 1);
      hide RunOk, IsScrapeInterval, IterOf, LastFetch;
      assert outs[..n] == outs[..n - 1] + [outs[n - 1]];
      ConcatMore(outs[..n - 1], outs[n - 1]);
      assert scrapes[..n][..n - 1] == scrapes[..n - 1];
      AllEmitted(LastFetch(its[..n - 1]), scrapes[n - 1], its[n - 1].now, outs[n - 1]);
      hide Concat, ScrapeEmits;
    }
  }

  lemma {:induction false} AllEmitted(last: map<string, int>, s: Scrape, now: int, out: seq<string>)
    requires ScrapeEmits(true, last, s, now, out)
    ensures multiset(out) == multiset(if s.ok then s.families else [])
  {
    if s.ok {
      forall n ensures multiset(out)[n] == multiset(s.families)[n] {
        EmitsMean(true, s.metrics, last, now, s.families, out, n);
      }
    }
  }

  /**
   * On any run, an emitted family is emitted again at the latest in the first successful scrape
   * holding it once as many iterations have passed as its interval holds scrape intervals.
   */
  lemma {:induction false} EmittedWithin(metrics: map<string, int>, scrapes: seq<Scrape>, its: seq<Iter>, g: int, i: nat, j: nat, n: string)
    requires IsScrapeInterval(metrics, g) && Legal(its, metrics, g) && ReadyAll(scrapes, its)
    requires n in metrics && metrics[n] > 0 && i < |its| && n in its[i].rec
    requires i + metrics[n] / g <= j < |its| && scrapes[j].ok && n in scrapes[j].families
    ensures FetchedIn(its, i, j, n)
  {
    hide Legal, LastFetch;
    TickInterval.IntervalsAreTicks(metrics, g, n);
    FetchedWithin(its, metrics, g, i, j, n);
  }

  /** Inside a scrape a family is judged by the fetch times before it, unless it was just emitted. */
  lemma {:induction false} PassesMeans(scrapeAll: bool, metrics: map<string, int>, last: map<string, int>, now: int, seen: seq<string>, out: seq<string>, n: string)
    requires EmitsExactly(scrapeAll, metrics, last, now, seen, out)
    ensures Passes(scrapeAll, metrics, last + AllAt(NameSet(out), now), now, n) <==>
      Passes(scrapeAll, metrics, last, now, n) && (Gated(scrapeAll, metrics, n) ==> n !in seen)
    ensures last + AllAt(NameSet(out + [n]), now) == (last + AllAt(NameSet(out), now))[n := now]
  {
    NameSetMore(out, n);
    assert n in NameSet(out) <==> n in out;
    assert n in out <==> multiset(out)[n] > 0;
    assert multiset(out)[n] == Emissions(scrapeAll, metrics, last, now, seen, n);
  }

  lemma {:induction false} EmitStep(scrapeAll: bool, metrics: map<string, int>, last: map<string, int>, now: int, seen: seq<string>, out: seq<string>, n: string)
    requires EmitsExactly(scrapeAll, metrics, last, now, seen, out)
    ensures EmitsExactly(scrapeAll, metrics, last, now, seen + [n],
      if Passes(scrapeAll, metrics, last, now, n) && (Gated(scrapeAll, metrics, n) ==> n !in seen) then out + [n] else out)
  {
    forall m ensures Emissions(scrapeAll, metrics, last, now, seen + [n], m) ==
        Emissions(scrapeAll, metrics, last, now, seen, m) +
        if m == n && Passes(scrapeAll, metrics, last, now, n) && (Gated(scrapeAll, metrics, n) ==> n !in seen) then 1 else 0 {
      assert m in seen + [n] <==> m in seen || m == n;
    }
  }
}
