/**
 * `featureMetrics`: one row per feature identifier met in the records'
 * feature breakdowns, with the feature's totals over every breakdown entry,
 * its display name, and the rows ordered by code generated, most first.
 */
module FeatureView {
  import opened Folds
  import opened Sorting
  import opened Rates
  import opened DisplayNames
  import opened MetricTypes

  function FeaturesOf(m: CopilotMetric): seq<TotalsByFeature> { m.totalsByFeature }
  function FeatureKey(t: TotalsByFeature): string { t.feature }
  function FeatureInteractions(t: TotalsByFeature): nat { t.userInitiatedInteractionCount }
  function FeatureGenerated(t: TotalsByFeature): nat { t.codeGenerationActivityCount }
  function FeatureAccepted(t: TotalsByFeature): nat { t.codeAcceptanceActivityCount }

  /** Every feature breakdown entry of the records, record by record. */
  function FeatureEntries(rs: seq<CopilotMetric>): seq<TotalsByFeature>
  {
    Flatten(rs, FeaturesOf)
  }

  datatype FeatureTally = FeatureTally(interactions: nat, generated: nat, accepted: nat)

  /** The accumulator of the feature whose breakdown entries are `g`. */
  function FeatureTallyOf(g: seq<TotalsByFeature>): FeatureTally
  {
    FeatureTally(SumOf(g, FeatureInteractions), SumOf(g, FeatureGenerated), SumOf(g, FeatureAccepted))
  }

  /** A feature's row: its display name and its totals. */
  function FeatureRow(feature: string, t: FeatureTally): FeatureMetrics
  {
    FeatureMetrics(FormatFeatureName(feature), t.interactions, t.generated, t.accepted,
      AcceptanceRate(t.accepted, t.generated))
  }

  /**
   * The feature rows in first-seen order of the identifiers, before sorting:
   * row `j` is the display name of the `j`-th identifier met, with the sums
   * of the counts over that identifier's breakdown entries.
   */
  function FeatureRows(rs: seq<CopilotMetric>): (rows: seq<FeatureMetrics>)
    ensures |rows| == |KeyOrder(FeatureEntries(rs), FeatureKey)|
    ensures forall j :: 0 <= j < |rows| ==>
      var k := KeyOrder(FeatureEntries(rs), FeatureKey)[j];
      var g := Group(FeatureEntries(rs), FeatureKey, k);
      && g != []
      && rows[j].feature == FormatFeatureName(k)
      && rows[j].interactions == SumOf(g, FeatureInteractions)
      && rows[j].codeGenerated == SumOf(g, FeatureGenerated)
      && rows[j].codeAccepted == SumOf(g, FeatureAccepted)
      && rows[j].acceptanceRate == AcceptanceRate(SumOf(g, FeatureAccepted), SumOf(g, FeatureGenerated))
  {
    var items := FeatureEntries(rs);
    var ks := KeyOrder(items, FeatureKey);
    seq(|ks|, j requires 0 <= j < |ks| => FeatureRow(ks[j], FeatureTallyOf(Group(items, FeatureKey, ks[j]))))
  }

  function RowGenerated(f: FeatureMetrics): nat { f.codeGenerated }
  function RowInteractions(f: FeatureMetrics): nat { f.interactions }
  function RowAccepted(f: FeatureMetrics): nat { f.codeAccepted }

  /** The view: the feature rows, stably sorted by code generated, most first. */
  function FeatureMetricsOf(rs: seq<CopilotMetric>): seq<FeatureMetrics>
  {
    Sort(FeatureRows(rs), RowGenerated, AtLeast)
  }

  lemma FeatureTallySnoc(g: seq<TotalsByFeature>, t: TotalsByFeature, existing: FeatureTally)
    requires existing == FeatureTallyOf(g)
    ensures FeatureTallyOf(g + [t]) == FeatureTally(
      existing.interactions + t.userInitiatedInteractionCount,
      existing.generated + t.codeGenerationActivityCount,
      existing.accepted + t.codeAcceptanceActivityCount)
  {
    SumOfSnoc(g, t, FeatureInteractions);
    SumOfSnoc(g, t, FeatureGenerated);
    SumOfSnoc(g, t, FeatureAccepted);
  }

  /** The body of the inner loop of `featureMetrics`. */
  method AddFeatureEntry(featureMap: map<string, FeatureTally>, order: seq<string>, feature: TotalsByFeature,
                         ghost seen: seq<TotalsByFeature>)
    returns (featureMap': map<string, FeatureTally>, order': seq<string>)
    requires Accumulated(seen, FeatureKey, FeatureTallyOf, featureMap, order)
    ensures Accumulated(seen + [feature], FeatureKey, FeatureTallyOf, featureMap', order')
  {
    var key := feature.feature;
    if key in featureMap {
      var existing := featureMap[key];
      FeatureTallySnoc(Group(seen, FeatureKey, key), feature, existing);
      var entry := FeatureTally(
        existing.interactions + feature.userInitiatedInteractionCount,
        existing.generated + feature.codeGenerationActivityCount,
        existing.accepted + feature.codeAcceptanceActivityCount);
      AccumulatedStep(seen, feature, FeatureKey, FeatureTallyOf, featureMap, order, entry);
      featureMap', order' := featureMap[key := entry], order;
    } else {
      var entry := FeatureTally(
        feature.userInitiatedInteractionCount,
        feature.codeGenerationActivityCount,
        feature.codeAcceptanceActivityCount);
      assert Group(seen, FeatureKey, key) == [];
      FeatureTallySnoc([], feature, FeatureTally(0, 0, 0));
      AccumulatedStep(seen, feature, FeatureKey, FeatureTallyOf, featureMap, order, entry);
      featureMap', order' := featureMap[key := entry], order + [key];
    }
  }

  /** The two loops of `featureMetrics`: one accumulator per feature identifier. */
  method AccumulateFeatures(metrics: seq<CopilotMetric>) returns (featureMap: map<string, FeatureTally>, order: seq<string>)
    ensures Accumulated(FeatureEntries(metrics), FeatureKey, FeatureTallyOf, featureMap, order)
  {
    featureMap, order := map[], [];
    ghost var seen: seq<TotalsByFeature> := [];
    AccumulatedEmpty(FeatureKey, FeatureTallyOf);
    for i := 0 to |metrics|
      invariant seen == FeatureEntries(metrics[..i])
      invariant Accumulated(seen, FeatureKey, FeatureTallyOf, featureMap, order)
    {
      var metric := metrics[i];
      ghost var done := seen;
      for j := 0 to |metric.totalsByFeature|
        invariant seen == done + metric.totalsByFeature[..j]
        invariant Accumulated(seen, FeatureKey, FeatureTallyOf, featureMap, order)
      {
        featureMap, order := AddFeatureEntry(featureMap, order, metric.totalsByFeature[j], seen);
        InnerPrefixSnoc(done, metric.totalsByFeature, j);
        seen := seen + [metric.totalsByFeature[j]];
      }
      PrefixSnoc(metrics, i);
      FlattenSnoc(metrics[..i], metric, FeaturesOf);
      assert metric.totalsByFeature[..|metric.totalsByFeature|] == metric.totalsByFeature;
    }
    assert metrics[..|metrics|] == metrics;
  }

  lemma FeatureRowsFromMap(rs: seq<CopilotMetric>, featureMap: map<string, FeatureTally>, order: seq<string>,
                           rows: seq<FeatureMetrics>)
    requires Accumulated(FeatureEntries(rs), FeatureKey, FeatureTallyOf, featureMap, order)
    requires |rows| == |order|
    requires forall t :: 0 <= t < |rows| ==> order[t] in featureMap && rows[t] == FeatureRow(order[t], featureMap[order[t]])
    ensures rows == FeatureRows(rs)
  {
  }

  /** The computed property `featureMetrics`. */
  method ComputeFeatureMetrics(metrics: seq<CopilotMetric>) returns (features: seq<FeatureMetrics>)
    ensures features == FeatureMetricsOf(metrics)
  {
    var featureMap, order := AccumulateFeatures(metrics);
    // Array.from(featureMap.entries()).map(...)
    var rows := seq(|order|, j requires 0 <= j < |order| => FeatureRow(order[j], featureMap[order[j]]));
    FeatureRowsFromMap(metrics, featureMap, order, rows);
    features := Sort(rows, RowGenerated, AtLeast);
  }

  /**
   * Every row belongs to one feature identifier met in the breakdowns: it
   * shows that identifier's display name and adds up every breakdown entry
   * with that identifier, and its rate is that of its own totals.
   */
  lemma FeatureRowMeaning(rs: seq<CopilotMetric>, f: FeatureMetrics)
    requires f in FeatureMetricsOf(rs)
    ensures exists k ::
      && k in KeySet(FeatureEntries(rs), FeatureKey)
      && f.feature == FormatFeatureName(k)
      && f.interactions == SumOf(Group(FeatureEntries(rs), FeatureKey, k), FeatureInteractions)
      && f.codeGenerated == SumOf(Group(FeatureEntries(rs), FeatureKey, k), FeatureGenerated)
      && f.codeAccepted == SumOf(Group(FeatureEntries(rs), FeatureKey, k), FeatureAccepted)
    ensures f.acceptanceRate == AcceptanceRate(f.codeAccepted, f.codeGenerated)
  {
    var rows := FeatureRows(rs);
    SortSameElements(rows, RowGenerated, AtLeast);
    var j :| 0 <= j < |rows| && rows[j] == f;
    KeyOrderCoversKeySet(FeatureEntries(rs), FeatureKey);
    assert KeyOrder(FeatureEntries(rs), FeatureKey)[j] in KeyOrder(FeatureEntries(rs), FeatureKey);
  }

  /**
   * One row per distinct raw identifier (grouping happens before the names
   * are formatted), code generated never increases down the list, ties keep
   * first-seen order, and the rows lose nothing: their totals add up to the
   * totals of all feature breakdown entries.
   */
  lemma FeaturesOrderedAndConserved(rs: seq<CopilotMetric>)
    ensures |FeatureMetricsOf(rs)| == |KeySet(FeatureEntries(rs), FeatureKey)|
    ensures forall i, j :: 0 <= i < j < |FeatureMetricsOf(rs)| ==>
      FeatureMetricsOf(rs)[i].codeGenerated >= FeatureMetricsOf(rs)[j].codeGenerated
    ensures forall n: nat :: Group(FeatureMetricsOf(rs), RowGenerated, n) == Group(FeatureRows(rs), RowGenerated, n)
    ensures SumOf(FeatureMetricsOf(rs), RowInteractions) == SumOf(FeatureEntries(rs), FeatureInteractions)
    ensures SumOf(FeatureMetricsOf(rs), RowGenerated) == SumOf(FeatureEntries(rs), FeatureGenerated)
    ensures SumOf(FeatureMetricsOf(rs), RowAccepted) == SumOf(FeatureEntries(rs), FeatureAccepted)
  {
    var items := FeatureEntries(rs);
    var rows := FeatureRows(rs);
    var ks := KeyOrder(items, FeatureKey);
    KeyOrderCardinality(items, FeatureKey);
    assert |multiset(FeatureMetricsOf(rs))| == |multiset(rows)|;
    AtLeastIsTotalPreorder();
    SortSorted(rows, RowGenerated, AtLeast);
    forall n: nat ensures Group(FeatureMetricsOf(rs), RowGenerated, n) == Group(rows, RowGenerated, n) {
      SortStable(rows, RowGenerated, AtLeast, n);
    }
    SortSum(rows, RowGenerated, AtLeast, RowInteractions);
    SortSum(rows, RowGenerated, AtLeast, RowGenerated);
    SortSum(rows, RowGenerated, AtLeast, RowAccepted);
    SumOfRows(rows, RowInteractions, ks, items, FeatureKey, FeatureInteractions);
    SumOfRows(rows, RowGenerated, ks, items, FeatureKey, FeatureGenerated);
    SumOfRows(rows, RowAccepted, ks, items, FeatureKey, FeatureAccepted);
    GroupTotalsAddUp(items, FeatureKey, FeatureInteractions);
    GroupTotalsAddUp(items, FeatureKey, FeatureGenerated);
    GroupTotalsAddUp(items, FeatureKey, FeatureAccepted);
  }
}
