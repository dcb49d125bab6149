/** Source configurations and when a reload treats two of them as the same. */
module SourceConfig {

  /** A Go map that may be nil; reflect.DeepEqual tells nil from empty. */
  datatype Intervals = NilIntervals | Intervals(m: map<string, int>)
  datatype Tags = NilTags | Tags(m: map<string, string>)

  datatype Source = Source(
    name: string,
    group: string,
    connStr: string,
    metrics: Intervals,
    metricsStandby: Intervals,
    kind: string,
    includePattern: string,
    excludePattern: string,
    presetMetrics: string,
    presetMetricsStandby: string,
    isEnabled: bool,
    customTags: Tags,
    onlyIfMaster: bool
  )

  /** Source.Equal: with a preset on either side only the preset names are compared. */
  predicate Equal(s: Source, s2: Source) {
    && (if s.presetMetrics != "" || s2.presetMetrics != "" then s.presetMetrics == s2.presetMetrics
        else s.metrics == s2.metrics)
    && (if s.presetMetricsStandby != "" || s2.presetMetricsStandby != "" then s.presetMetricsStandby == s2.presetMetricsStandby
        else s.metricsStandby == s2.metricsStandby)
    && s.name == s2.name && s.group == s2.group && s.connStr == s2.connStr && s.kind == s2.kind
    && s.isEnabled == s2.isEnabled && s.includePattern == s2.includePattern && s.excludePattern == s2.excludePattern
    && s.onlyIfMaster == s2.onlyIfMaster && s.customTags == s2.customTags
  }

  /** What Equal ignores: the metric lists that a preset replaces. */
  function Essence(s: Source): Source {
    s.(metrics := if s.presetMetrics != "" then NilIntervals else s.metrics,
       metricsStandby := if s.presetMetricsStandby != "" then NilIntervals else s.metricsStandby)
  }

  /** Equal is equality of essences, hence an equivalence. */
  lemma {:induction false} EqualIsEquivalence(a: Source, b: Source, c: Source)
    ensures Equal(a, b) <==> Essence(a) == Essence(b)
    ensures Equal(a, a)
    ensures Equal(a, b) ==> Equal(b, a)
    ensures Equal(a, b) && Equal(b, c) ==> Equal(a, c)
  {
  }

  /** Sources are equal exactly when they agree in everything but the metric lists for which both name one preset. */
  lemma {:induction false} EqualMeans(a: Source, b: Source)
    ensures Equal(a, b) <==>
      && b == a.(metrics := b.metrics, metricsStandby := b.metricsStandby)
      && (a.presetMetrics != "" || a.metrics == b.metrics)
      && (a.presetMetricsStandby != "" || a.metricsStandby == b.metricsStandby)
  {
  }

  /** The preset's metrics, nil when the preset is unknown. */
  function PresetMetrics(presets: map<string, Intervals>, name: string): Intervals {
    if name in presets then presets[name] else NilIntervals
  }

  /** What LoadMetrics does to one source: real intervals in place of its presets' names. */
  function Install(presets: map<string, Intervals>, isProm: bool, s: Source): Source {
    var main := if s.presetMetrics != "" then PresetMetrics(presets, s.presetMetrics) else NilIntervals;
    var standby := if s.presetMetricsStandby != "" then PresetMetrics(presets, s.presetMetricsStandby) else NilIntervals;
    s.(metrics := if main.NilIntervals? then s.metrics else main,
       metricsStandby := if standby.NilIntervals? || isProm then s.metricsStandby else standby)
  }

  /** A known preset replaces the intervals; an unknown one, an empty name and the standby list of a Prometheus source change nothing. */
  lemma {:induction false} InstallMeans(presets: map<string, Intervals>, isProm: bool, s: Source)
    ensures var s' := Install(presets, isProm, s);
            && s'.metrics == (if s.presetMetrics != "" && s.presetMetrics in presets && presets[s.presetMetrics].Intervals?
                              then presets[s.presetMetrics] else s.metrics)
            && s'.metricsStandby == (if !isProm && s.presetMetricsStandby != "" && s.presetMetricsStandby in presets &&
                                        presets[s.presetMetricsStandby].Intervals?
                                     then presets[s.presetMetricsStandby] else s.metricsStandby)
            && s' == s.(metrics := s'.metrics, metricsStandby := s'.metricsStandby)
  {
  }

  /** Installing presets, any number of times, never changes what a source is equal to. */
  lemma {:induction false} InstallKeepsEssence(presets: map<string, Intervals>, isProm: bool, s: Source, other: Source)
    ensures Essence(Install(presets, isProm, s)) == Essence(s)
    ensures Equal(Install(presets, isProm, s), other) <==> Equal(s, other)
  {
  }
}
