/**
 * The views agree with each other: the global totals are the sums of the
 * per-user rows and of the per-day rows, the global user count is the
 * number of user rows, and the users' active days add up to the number of
 * records.
 */
module Conservation {
  import opened Text
  import opened Folds
  import opened Sorting
  import opened MetricTypes
  import opened UsersView
  import opened DailyView
  import opened GlobalView

  /** One per record. */
  function Once(m: CopilotMetric): nat { 1 }

  lemma {:induction false} CountIsLength(xs: seq<CopilotMetric>)
    ensures SumOf(xs, Once) == |xs|
  {
    if xs != [] {
      CountIsLength(xs[..|xs| - 1]);
    }
  }

  function ActiveDaysOf(u: UserSummary): nat { u.activeDays }

  /** A column of the user rows that adds up one group of records each adds up over all records. */
  lemma UserColumnAddsUp(rs: seq<CopilotMetric>, proj: UserSummary -> nat, f: CopilotMetric -> nat)
    requires forall j :: 0 <= j < |UserRows(rs)| ==>
      proj(UserRows(rs)[j]) == SumOf(Group(rs, Login, KeyOrder(rs, Login)[j]), f)
    ensures SumOf(UsersSummaryOf(rs), proj) == SumOf(rs, f)
  {
    SortSum(UserRows(rs), TotalInteractionsOf, AtLeast, proj);
    SumOfRows(UserRows(rs), proj, KeyOrder(rs, Login), rs, Login, f);
    GroupTotalsAddUp(rs, Login, f);
  }

  /** The same for a column of the day rows. */
  lemma DayColumnAddsUp(rs: seq<CopilotMetric>, proj: DailyMetrics -> nat, f: CopilotMetric -> nat)
    requires forall j :: 0 <= j < |DayRows(rs)| ==>
      proj(DayRows(rs)[j]) == SumOf(Group(rs, Day, KeyOrder(rs, Day)[j]), f)
    ensures SumOf(DailyMetricsOf(rs), proj) == SumOf(rs, f)
  {
    SortSum(DayRows(rs), RowDay, NotAfter, proj);
    SumOfRows(DayRows(rs), proj, KeyOrder(rs, Day), rs, Day, f);
    GroupTotalsAddUp(rs, Day, f);
  }

  /**
   * `globalStats` against `usersSummary`: one user row per counted user,
   * and every global total is the sum of the matching user column.
   */
  lemma GlobalMatchesUsers(rs: seq<CopilotMetric>)
    ensures GlobalStatsOf(rs).totalUsers == |UsersSummaryOf(rs)|
    ensures GlobalStatsOf(rs).totalInteractions == SumOf(UsersSummaryOf(rs), TotalInteractionsOf)
    ensures GlobalStatsOf(rs).totalCodeGenerated == SumOf(UsersSummaryOf(rs), TotalGeneratedOf)
    ensures GlobalStatsOf(rs).totalCodeAccepted == SumOf(UsersSummaryOf(rs), TotalAcceptedOf)
    ensures GlobalStatsOf(rs).totalLocAdded == SumOf(UsersSummaryOf(rs), UserLocAddedOf)
    ensures GlobalStatsOf(rs).totalLocSuggested == SumOf(UsersSummaryOf(rs), UserLocSuggestedOf)
  {
    OneRowPerUser(rs);
    UserColumnAddsUp(rs, TotalInteractionsOf, Interactions);
    UserColumnAddsUp(rs, TotalGeneratedOf, Generated);
    UserColumnAddsUp(rs, TotalAcceptedOf, Accepted);
    UserColumnAddsUp(rs, UserLocAddedOf, LocAdded);
    UserColumnAddsUp(rs, UserLocSuggestedOf, LocSuggested);
  }

  /** Every record is one active day of one user. */
  lemma ActiveDaysCountRecords(rs: seq<CopilotMetric>)
    ensures SumOf(UsersSummaryOf(rs), ActiveDaysOf) == |rs|
  {
    forall j | 0 <= j < |UserRows(rs)|
      ensures ActiveDaysOf(UserRows(rs)[j]) == SumOf(Group(rs, Login, KeyOrder(rs, Login)[j]), Once)
    {
      CountIsLength(Group(rs, Login, KeyOrder(rs, Login)[j]));
    }
    UserColumnAddsUp(rs, ActiveDaysOf, Once);
    CountIsLength(rs);
  }

  /** `globalStats` against `dailyMetrics`: every global total is the sum of the matching day column. */
  lemma GlobalMatchesDays(rs: seq<CopilotMetric>)
    ensures GlobalStatsOf(rs).totalInteractions == SumOf(DailyMetricsOf(rs), DayInteractionsOf)
    ensures GlobalStatsOf(rs).totalCodeGenerated == SumOf(DailyMetricsOf(rs), DayGeneratedOf)
    ensures GlobalStatsOf(rs).totalCodeAccepted == SumOf(DailyMetricsOf(rs), DayAcceptedOf)
  {
    DayColumnAddsUp(rs, DayInteractionsOf, Interactions);
    DayColumnAddsUp(rs, DayGeneratedOf, Generated);
    DayColumnAddsUp(rs, DayAcceptedOf, Accepted);
  }
}
