/**
 * `dailyMetrics`: one row per day, with the number of distinct users active
 * that day and the day's totals, ordered by day.
 */
module DailyView {
  import opened Text
  import opened Folds
  import opened Sorting
  import opened Rates
  import opened MetricTypes

  /** A day's accumulator: the logins seen that day and the running counts. */
  datatype DayTally = DayTally(users: set<string>, interactions: nat, generated: nat, accepted: nat)

  /** The accumulator of the day whose records are `g`. */
  function DayTallyOf(g: seq<CopilotMetric>): DayTally
  {
    DayTally(KeySet(g, Login), SumOf(g, Interactions), SumOf(g, Generated), SumOf(g, Accepted))
  }

  /** The `map` over the entries: a day's row from its accumulator. */
  function DayRow(day: string, t: DayTally): DailyMetrics
  {
    DailyMetrics(day, |t.users|, t.interactions, t.generated, t.accepted, AcceptanceRate(t.accepted, t.generated))
  }

  /**
   * The day rows in first-seen order of the days, before sorting: row `j`
   * is the `j`-th day met, with the number of distinct logins among that
   * day's records and the sums of their counts.
   */
  function DayRows(rs: seq<CopilotMetric>): (rows: seq<DailyMetrics>)
    ensures |rows| == |KeyOrder(rs, Day)|
    ensures forall j :: 0 <= j < |rows| ==>
      var g := Group(rs, Day, KeyOrder(rs, Day)[j]);
      && g != []
      && rows[j].day == KeyOrder(rs, Day)[j]
      && rows[j].activeUsers == |KeySet(g, Login)|
      && rows[j].totalInteractions == SumOf(g, Interactions)
      && rows[j].totalCodeGenerated == SumOf(g, Generated)
      && rows[j].totalCodeAccepted == SumOf(g, Accepted)
      && rows[j].acceptanceRate == AcceptanceRate(SumOf(g, Accepted), SumOf(g, Generated))
  {
    var ks := KeyOrder(rs, Day);
    seq(|ks|, j requires 0 <= j < |ks| => DayRow(ks[j], DayTallyOf(Group(rs, Day, ks[j]))))
  }

  function RowDay(d: DailyMetrics): string { d.day }
  function DayInteractionsOf(d: DailyMetrics): nat { d.totalInteractions }
  function DayGeneratedOf(d: DailyMetrics): nat { d.totalCodeGenerated }
  function DayAcceptedOf(d: DailyMetrics): nat { d.totalCodeAccepted }

  /** The view: the day rows, sorted by day. */
  function DailyMetricsOf(rs: seq<CopilotMetric>): seq<DailyMetrics>
  {
    Sort(DayRows(rs), RowDay, NotAfter)
  }

  lemma DayTallySnoc(g: seq<CopilotMetric>, m: CopilotMetric, existing: DayTally)
    requires existing == DayTallyOf(g)
    ensures DayTallyOf(g + [m]) == DayTally(existing.users + {m.userLogin},
      existing.interactions + m.userInitiatedInteractionCount,
      existing.generated + m.codeGenerationActivityCount,
      existing.accepted + m.codeAcceptanceActivityCount)
  {
    KeySetSnoc(g, m, Login);
    SumOfSnoc(g, m, Interactions);
    SumOfSnoc(g, m, Generated);
    SumOfSnoc(g, m, Accepted);
  }

  lemma DayTallySingleton(m: CopilotMetric)
    ensures DayTallyOf([m]) == DayTally({m.userLogin},
      m.userInitiatedInteractionCount, m.codeGenerationActivityCount, m.codeAcceptanceActivityCount)
  {
    assert [m] == [] + [m];
    DayTallySnoc([], m, DayTally({}, 0, 0, 0));
  }

  /** The body of the loop of `dailyMetrics`. */
  method AddDayRecord(dayMap: map<string, DayTally>, order: seq<string>, metric: CopilotMetric, ghost seen: seq<CopilotMetric>)
    returns (dayMap': map<string, DayTally>, order': seq<string>)
    requires Accumulated(seen, Day, DayTallyOf, dayMap, order)
    ensures Accumulated(seen + [metric], Day, DayTallyOf, dayMap', order')
  {
    var day := metric.day;
    if day in dayMap {
      var existing := dayMap[day];
      DayTallySnoc(Group(seen, Day, day), metric, existing);
      var entry := DayTally(existing.users + {metric.userLogin},
        existing.interactions + metric.userInitiatedInteractionCount,
        existing.generated + metric.codeGenerationActivityCount,
        existing.accepted + metric.codeAcceptanceActivityCount);
      AccumulatedStep(seen, metric, Day, DayTallyOf, dayMap, order, entry);
      dayMap', order' := dayMap[day := entry], order;
    } else {
      var entry := DayTally({metric.userLogin},
        metric.userInitiatedInteractionCount,
        metric.codeGenerationActivityCount,
        metric.codeAcceptanceActivityCount);
      assert Group(seen, Day, day) + [metric] == [metric];
      DayTallySingleton(metric);
      AccumulatedStep(seen, metric, Day, DayTallyOf, dayMap, order, entry);
      dayMap', order' := dayMap[day := entry], order + [day];
    }
  }

  /** The loop of `dailyMetrics`: one accumulator per day, in first-seen order. */
  method AccumulateDays(metrics: seq<CopilotMetric>) returns (dayMap: map<string, DayTally>, order: seq<string>)
    ensures Accumulated(metrics, Day, DayTallyOf, dayMap, order)
  {
    dayMap, order := map[], [];
    ghost var seen: seq<CopilotMetric> := [];
    AccumulatedEmpty(Day, DayTallyOf);
    for i := 0 to |metrics|
      invariant seen == metrics[..i]
      invariant Accumulated(seen, Day, DayTallyOf, dayMap, order)
    {
      dayMap, order := AddDayRecord(dayMap, order, metrics[i], seen);
      PrefixSnoc(metrics, i);
      seen := seen + [metrics[i]];
    }
    assert seen == metrics;
  }

  /** The rows read off the finished accumulator, in key order, are the day rows. */
  lemma DayRowsFromMap(rs: seq<CopilotMetric>, dayMap: map<string, DayTally>, order: seq<string>, rows: seq<DailyMetrics>)
    requires Accumulated(rs, Day, DayTallyOf, dayMap, order)
    requires |rows| == |order|
    requires forall t :: 0 <= t < |rows| ==> order[t] in dayMap && rows[t] == DayRow(order[t], dayMap[order[t]])
    ensures rows == DayRows(rs)
  {
  }

  /** The computed property `dailyMetrics`. */
  method ComputeDailyMetrics(metrics: seq<CopilotMetric>) returns (days: seq<DailyMetrics>)
    ensures days == DailyMetricsOf(metrics)
  {
    var dayMap, order := AccumulateDays(metrics);
    // Array.from(dayMap.entries()).map(...)
    var rows := seq(|order|, j requires 0 <= j < |order| => DayRow(order[j], dayMap[order[j]]));
    DayRowsFromMap(metrics, dayMap, order, rows);
    days := Sort(rows, RowDay, NotAfter);
  }

  /** A row of the view is the row of its day's records. */
  lemma DayRowIsTally(rs: seq<CopilotMetric>, d: DailyMetrics)
    requires d in DailyMetricsOf(rs)
    ensures Group(rs, Day, d.day) != []
    ensures d == DayRow(d.day, DayTallyOf(Group(rs, Day, d.day)))
  {
    var rows := DayRows(rs);
    SortSameElements(rows, RowDay, NotAfter);
    var j :| 0 <= j < |rows| && rows[j] == d;
    assert KeyOrder(rs, Day)[j] in KeyOrder(rs, Day);
  }

  /**
   * A day's row counts the distinct logins of that day's records, which is
   * at most the number of those records, adds up their counts, and carries
   * the rate of its own totals.
   */
  lemma DayRowMeaning(rs: seq<CopilotMetric>, d: DailyMetrics)
    requires d in DailyMetricsOf(rs)
    ensures exists i :: 0 <= i < |rs| && rs[i].day == d.day
    ensures d.activeUsers == |KeySet(Group(rs, Day, d.day), Login)|
    ensures d.activeUsers <= |Group(rs, Day, d.day)|
    ensures d.totalInteractions == SumOf(Group(rs, Day, d.day), Interactions)
    ensures d.totalCodeGenerated == SumOf(Group(rs, Day, d.day), Generated)
    ensures d.totalCodeAccepted == SumOf(Group(rs, Day, d.day), Accepted)
    ensures d.acceptanceRate == AcceptanceRate(d.totalCodeAccepted, d.totalCodeGenerated)
  {
    DayRowIsTally(rs, d);
    KeySetBound(Group(rs, Day, d.day), Login);
    GroupEmpty(rs, Day, d.day);
  }

  /** Every day of the records has a row. */
  lemma EveryDayHasRow(rs: seq<CopilotMetric>, i: nat)
    requires i < |rs|
    ensures exists j :: 0 <= j < |DailyMetricsOf(rs)| && DailyMetricsOf(rs)[j].day == rs[i].day
  {
    var t := KeyOrderIndex(rs, Day, i);
    var j := SortedPosition(DayRows(rs), RowDay, NotAfter, t);
    assert DailyMetricsOf(rs)[j].day == rs[i].day;
  }

  /** As many rows as distinct days, and days strictly increase down the list. */
  lemma DailyOrdered(rs: seq<CopilotMetric>)
    ensures |DailyMetricsOf(rs)| == |KeySet(rs, Day)|
    ensures forall i, j :: 0 <= i < j < |DailyMetricsOf(rs)| ==>
      Less(DailyMetricsOf(rs)[i].day, DailyMetricsOf(rs)[j].day)
  {
    var rows := DayRows(rs);
    var r := DailyMetricsOf(rs);
    KeyOrderCardinality(rs, Day);
    assert |multiset(r)| == |multiset(rows)|;
    assert DistinctBy(rows, RowDay);
    SortDistinctBy(rows, RowDay, NotAfter, RowDay);
    NotAfterIsTotalPreorder();
    SortSorted(rows, RowDay, NotAfter);
    LessIsStrictTotalOrder();
    forall i, j | 0 <= i < j < |r| ensures Less(r[i].day, r[j].day) {
      assert NotAfter(RowDay(r[i]), RowDay(r[j]));
      assert RowDay(r[i]) != RowDay(r[j]);
    }
  }
}
