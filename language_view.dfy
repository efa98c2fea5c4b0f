/**
 * `languageMetrics`: one row per language met in the records'
 * language-and-feature breakdowns, with the language's code generated and
 * accepted over every such entry, the name capitalised, and the rows
 * ordered by code generated, most first.
 */
module LanguageView {
  import opened Folds
  import opened Sorting
  import opened Rates
  import opened DisplayNames
  import opened MetricTypes

  function LanguageFeaturesOf(m: CopilotMetric): seq<TotalsByLanguageFeature> { m.totalsByLanguageFeature }
  function LanguageKey(t: TotalsByLanguageFeature): string { t.language }
  function LanguageGenerated(t: TotalsByLanguageFeature): nat { t.codeGenerationActivityCount }
  function LanguageAccepted(t: TotalsByLanguageFeature): nat { t.codeAcceptanceActivityCount }

  /** Every language-and-feature breakdown entry of the records, record by record. */
  function LanguageEntries(rs: seq<CopilotMetric>): seq<TotalsByLanguageFeature>
  {
    Flatten(rs, LanguageFeaturesOf)
  }

  datatype LanguageTally = LanguageTally(generated: nat, accepted: nat)

  /** The accumulator of the language whose breakdown entries are `g`. */
  function LanguageTallyOf(g: seq<TotalsByLanguageFeature>): LanguageTally
  {
    LanguageTally(SumOf(g, LanguageGenerated), SumOf(g, LanguageAccepted))
  }

  /** A language's row: its capitalised name and its totals. */
  function LanguageRow(language: string, t: LanguageTally): LanguageMetrics
  {
    LanguageMetrics(FormatLanguageName(language), t.generated, t.accepted, AcceptanceRate(t.accepted, t.generated))
  }

  /**
   * The language rows in first-seen order of the languages, before sorting:
   * row `j` is the capitalised `j`-th language met, with the sums of the
   * counts over that language's breakdown entries.
   */
  function LanguageRows(rs: seq<CopilotMetric>): (rows: seq<LanguageMetrics>)
    ensures |rows| == |KeyOrder(LanguageEntries(rs), LanguageKey)|
    ensures forall j :: 0 <= j < |rows| ==>
      var k := KeyOrder(LanguageEntries(rs), LanguageKey)[j];
      var g := Group(LanguageEntries(rs), LanguageKey, k);
      && g != []
      && rows[j].language == FormatLanguageName(k)
      && rows[j].codeGenerated == SumOf(g, LanguageGenerated)
      && rows[j].codeAccepted == SumOf(g, LanguageAccepted)
      && rows[j].acceptanceRate == AcceptanceRate(SumOf(g, LanguageAccepted), SumOf(g, LanguageGenerated))
  {
    var items := LanguageEntries(rs);
    var ks := KeyOrder(items, LanguageKey);
    seq(|ks|, j requires 0 <= j < |ks| => LanguageRow(ks[j], LanguageTallyOf(Group(items, LanguageKey, ks[j]))))
  }

  function RowGenerated(l: LanguageMetrics): nat { l.codeGenerated }
  function RowAccepted(l: LanguageMetrics): nat { l.codeAccepted }

  /** The view: the language rows, stably sorted by code generated, most first. */
  function LanguageMetricsOf(rs: seq<CopilotMetric>): seq<LanguageMetrics>
  {
    Sort(LanguageRows(rs), RowGenerated, AtLeast)
  }

  lemma LanguageTallySnoc(g: seq<TotalsByLanguageFeature>, t: TotalsByLanguageFeature, existing: LanguageTally)
    requires existing == LanguageTallyOf(g)
    ensures LanguageTallyOf(g + [t]) == LanguageTally(
      existing.generated + t.codeGenerationActivityCount,
      existing.accepted + t.codeAcceptanceActivityCount)
  {
    SumOfSnoc(g, t, LanguageGenerated);
    SumOfSnoc(g, t, LanguageAccepted);
  }

  /** The body of the inner loop of `languageMetrics`. */
  method AddLanguageEntry(langMap: map<string, LanguageTally>, order: seq<string>, lang: TotalsByLanguageFeature,
                          ghost seen: seq<TotalsByLanguageFeature>)
    returns (langMap': map<string, LanguageTally>, order': seq<string>)
    requires Accumulated(seen, LanguageKey, LanguageTallyOf, langMap, order)
    ensures Accumulated(seen + [lang], LanguageKey, LanguageTallyOf, langMap', order')
  {
    var key := lang.language;
    if key in langMap {
      var existing := langMap[key];
      LanguageTallySnoc(Group(seen, LanguageKey, key), lang, existing);
      var entry := LanguageTally(
        existing.generated + lang.codeGenerationActivityCount,
        existing.accepted + lang.codeAcceptanceActivityCount);
      AccumulatedStep(seen, lang, LanguageKey, LanguageTallyOf, langMap, order, entry);
      langMap', order' := langMap[key := entry], order;
    } else {
      var entry := LanguageTally(lang.codeGenerationActivityCount, lang.codeAcceptanceActivityCount);
      assert Group(seen, LanguageKey, key) == [];
      LanguageTallySnoc([], lang, LanguageTally(0, 0));
      AccumulatedStep(seen, lang, LanguageKey, LanguageTallyOf, langMap, order, entry);
      langMap', order' := langMap[key := entry], order + [key];
    }
  }

  /** The two loops of `languageMetrics`: one accumulator per language. */
  method AccumulateLanguages(metrics: seq<CopilotMetric>) returns (langMap: map<string, LanguageTally>, order: seq<string>)
    ensures Accumulated(LanguageEntries(metrics), LanguageKey, LanguageTallyOf, langMap, order)
  {
    langMap, order := map[], [];
    ghost var seen: seq<TotalsByLanguageFeature> := [];
    AccumulatedEmpty(LanguageKey, LanguageTallyOf);
    for i := 0 to |metrics|
      invariant seen == LanguageEntries(metrics[..i])
      invariant Accumulated(seen, LanguageKey, LanguageTallyOf, langMap, order)
    {
      var metric := metrics[i];
      ghost var done := seen;
      for j := 0 to |metric.totalsByLanguageFeature|
        invariant seen == done + metric.totalsByLanguageFeature[..j]
        invariant Accumulated(seen, LanguageKey, LanguageTallyOf, langMap, order)
      {
        langMap, order := AddLanguageEntry(langMap, order, metric.totalsByLanguageFeature[j], seen);
        InnerPrefixSnoc(done, metric.totalsByLanguageFeature, j);
        seen := seen + [metric.totalsByLanguageFeature[j]];
      }
      PrefixSnoc(metrics, i);
      FlattenSnoc(metrics[..i], metric, LanguageFeaturesOf);
      assert metric.totalsByLanguageFeature[..|metric.totalsByLanguageFeature|] == metric.totalsByLanguageFeature;
    }
    assert metrics[..|metrics|] == metrics;
  }

  lemma LanguageRowsFromMap(rs: seq<CopilotMetric>, langMap: map<string, LanguageTally>, order: seq<string>,
                            rows: seq<LanguageMetrics>)
    requires Accumulated(LanguageEntries(rs), LanguageKey, LanguageTallyOf, langMap, order)
    requires |rows| == |order|
    requires forall t :: 0 <= t < |rows| ==> order[t] in langMap && rows[t] == LanguageRow(order[t], langMap[order[t]])
    ensures rows == LanguageRows(rs)
  {
  }

  /** The computed property `languageMetrics`. */
  method ComputeLanguageMetrics(metrics: seq<CopilotMetric>) returns (languages: seq<LanguageMetrics>)
    ensures languages == LanguageMetricsOf(metrics)
  {
    var langMap, order := AccumulateLanguages(metrics);
    // Array.from(langMap.entries()).map(...)
    var rows := seq(|order|, j requires 0 <= j < |order| => LanguageRow(order[j], langMap[order[j]]));
    LanguageRowsFromMap(metrics, langMap, order, rows);
    languages := Sort(rows, RowGenerated, AtLeast);
  }

  /**
   * Every row belongs to one language met in the breakdowns: it shows the
   * language with its first letter upper-cased and adds up every breakdown
   * entry of that language, and its rate is that of its own totals.
   */
  lemma LanguageRowMeaning(rs: seq<CopilotMetric>, l: LanguageMetrics)
    requires l in LanguageMetricsOf(rs)
    ensures exists k ::
      && k in KeySet(LanguageEntries(rs), LanguageKey)
      && l.language == FormatLanguageName(k)
      && l.codeGenerated == SumOf(Group(LanguageEntries(rs), LanguageKey, k), LanguageGenerated)
      && l.codeAccepted == SumOf(Group(LanguageEntries(rs), LanguageKey, k), LanguageAccepted)
    ensures l.acceptanceRate == AcceptanceRate(l.codeAccepted, l.codeGenerated)
  {
    var rows := LanguageRows(rs);
    SortSameElements(rows, RowGenerated, AtLeast);
    var j :| 0 <= j < |rows| && rows[j] == l;
    KeyOrderCoversKeySet(LanguageEntries(rs), LanguageKey);
    assert KeyOrder(LanguageEntries(rs), LanguageKey)[j] in KeyOrder(LanguageEntries(rs), LanguageKey);
  }

  /**
   * One row per distinct raw language, code generated never increases down
   * the list, ties keep first-seen order, and the rows' totals add up to
   * the totals of all language-and-feature breakdown entries.
   */
  lemma LanguagesOrderedAndConserved(rs: seq<CopilotMetric>)
    ensures |LanguageMetricsOf(rs)| == |KeySet(LanguageEntries(rs), LanguageKey)|
    ensures forall i, j :: 0 <= i < j < |LanguageMetricsOf(rs)| ==>
      LanguageMetricsOf(rs)[i].codeGenerated >= LanguageMetricsOf(rs)[j].codeGenerated
    ensures forall n: nat :: Group(LanguageMetricsOf(rs), RowGenerated, n) == Group(LanguageRows(rs), RowGenerated, n)
    ensures SumOf(LanguageMetricsOf(rs), RowGenerated) == SumOf(LanguageEntries(rs), LanguageGenerated)
    ensures SumOf(LanguageMetricsOf(rs), RowAccepted) == SumOf(LanguageEntries(rs), LanguageAccepted)
  {
    var items := LanguageEntries(rs);
    var rows := LanguageRows(rs);
    var ks := KeyOrder(items, LanguageKey);
    KeyOrderCardinality(items, LanguageKey);
    assert |multiset(LanguageMetricsOf(rs))| == |multiset(rows)|;
    AtLeastIsTotalPreorder();
    SortSorted(rows, RowGenerated, AtLeast);
    forall n: nat ensures Group(LanguageMetricsOf(rs), RowGenerated, n) == Group(rows, RowGenerated, n) {
      SortStable(rows, RowGenerated, AtLeast, n);
    }
    SortSum(rows, RowGenerated, AtLeast, RowGenerated);
    SortSum(rows, RowGenerated, AtLeast, RowAccepted);
    SumOfRows(rows, RowGenerated, ks, items, LanguageKey, LanguageGenerated);
    SumOfRows(rows, RowAccepted, ks, items, LanguageKey, LanguageAccepted);
    GroupTotalsAddUp(items, LanguageKey, LanguageGenerated);
    GroupTotalsAddUp(items, LanguageKey, LanguageAccepted);
  }
}
