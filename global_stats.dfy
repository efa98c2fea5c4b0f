/**
 * `globalStats`: the number of distinct users, the totals over every
 * record, the overall rate, the report period of the first record, and the
 * lines added and suggested over every editor breakdown.
 */
module GlobalView {
  import opened Folds
  import opened Rates
  import opened MetricTypes
  import UsersView

  /** What `globalStats` is, record by record. */
  function GlobalStatsOf(rs: seq<CopilotMetric>): GlobalStats
  {
    var generated := SumOf(rs, Generated);
    var accepted := SumOf(rs, Accepted);
    GlobalStats(
      totalUsers := |KeySet(rs, Login)|,
      totalInteractions := SumOf(rs, Interactions),
      totalCodeGenerated := generated,
      totalCodeAccepted := accepted,
      averageAcceptanceRate := AcceptanceRate(accepted, generated),
      reportStartDay := if rs == [] then "" else rs[0].reportStartDay,
      reportEndDay := if rs == [] then "" else rs[0].reportEndDay,
      totalLocAdded := SumOf(rs, LocAdded),
      totalLocSuggested := SumOf(rs, LocSuggested))
  }

  /** The running totals after one more record. */
  lemma TotalsSnoc(rs: seq<CopilotMetric>, m: CopilotMetric)
    ensures SumOf(rs + [m], Interactions) == SumOf(rs, Interactions) + m.userInitiatedInteractionCount
    ensures SumOf(rs + [m], Generated) == SumOf(rs, Generated) + m.codeGenerationActivityCount
    ensures SumOf(rs + [m], Accepted) == SumOf(rs, Accepted) + m.codeAcceptanceActivityCount
    ensures SumOf(rs + [m], LocAdded) == SumOf(rs, LocAdded) + LocAdded(m)
    ensures SumOf(rs + [m], LocSuggested) == SumOf(rs, LocSuggested) + LocSuggested(m)
  {
    SumOfSnoc(rs, m, Interactions);
    SumOfSnoc(rs, m, Generated);
    SumOfSnoc(rs, m, Accepted);
    SumOfSnoc(rs, m, LocAdded);
    SumOfSnoc(rs, m, LocSuggested);
  }

  /** The computed property `globalStats`. */
  method ComputeGlobalStats(metrics: seq<CopilotMetric>) returns (stats: GlobalStats)
    ensures stats == GlobalStatsOf(metrics)
  {
    var uniqueUsers := KeySet(metrics, Login);
    var totalInteractions, totalGenerated, totalAccepted := 0, 0, 0;
    var totalLocAdded, totalLocSuggested := 0, 0;
    for i := 0 to |metrics|
      invariant totalInteractions == SumOf(metrics[..i], Interactions)
      invariant totalGenerated == SumOf(metrics[..i], Generated)
      invariant totalAccepted == SumOf(metrics[..i], Accepted)
      invariant totalLocAdded == SumOf(metrics[..i], LocAdded)
      invariant totalLocSuggested == SumOf(metrics[..i], LocSuggested)
    {
      var metric := metrics[i];
      PrefixSnoc(metrics, i);
      TotalsSnoc(metrics[..i], metric);
      totalInteractions := totalInteractions + metric.userInitiatedInteractionCount;
      totalGenerated := totalGenerated + metric.codeGenerationActivityCount;
      totalAccepted := totalAccepted + metric.codeAcceptanceActivityCount;
      var locAdded, locSuggested := UsersView.SumIdeLoc(metric);
      totalLocAdded := totalLocAdded + locAdded;
      totalLocSuggested := totalLocSuggested + locSuggested;
    }
    assert metrics[..|metrics|] == metrics;
    var reportStartDay, reportEndDay := "", "";
    if |metrics| > 0 {
      reportStartDay, reportEndDay := metrics[0].reportStartDay, metrics[0].reportEndDay;
    }
    stats := GlobalStats(
      |uniqueUsers|, totalInteractions, totalGenerated, totalAccepted,
      AcceptanceRate(totalAccepted, totalGenerated),
      reportStartDay, reportEndDay, totalLocAdded, totalLocSuggested);
  }

  /**
   * The report period is the first record's, or empty without records; the
   * user count is the number of distinct logins, at most one per record;
   * the rate is that of the overall totals, and no records give all zeros.
   */
  lemma GlobalStatsMeaning(rs: seq<CopilotMetric>)
    ensures rs == [] ==> GlobalStatsOf(rs) == GlobalStats(0, 0, 0, 0, 0, "", "", 0, 0)
    ensures rs != [] ==>
      GlobalStatsOf(rs).reportStartDay == rs[0].reportStartDay && GlobalStatsOf(rs).reportEndDay == rs[0].reportEndDay
    ensures GlobalStatsOf(rs).totalUsers <= |rs|
    ensures rs != [] ==> GlobalStatsOf(rs).totalUsers >= 1
    ensures GlobalStatsOf(rs).averageAcceptanceRate ==
      AcceptanceRate(GlobalStatsOf(rs).totalCodeAccepted, GlobalStatsOf(rs).totalCodeGenerated)
  {
    KeySetBound(rs, Login);
    if rs == [] {
      assert KeySet(rs, Login) == {};
    } else {
      assert rs[0].userLogin in KeySet(rs, Login);
    }
  }
}
