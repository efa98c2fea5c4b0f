/**
 * The usage records read from the line-delimited input and the rows of the
 * six dashboard views.  Counts are non-negative integers.  The optional
 * plugin/editor version fields and `totals_by_language_model` are not read
 * by any view and are not part of this model.
 */
module MetricTypes {
  import opened Folds

  /** One editor's share of a record (`totals_by_ide`). */
  datatype TotalsByIde = TotalsByIde(
    ide: string,
    userInitiatedInteractionCount: nat,
    codeGenerationActivityCount: nat,
    codeAcceptanceActivityCount: nat,
    locSuggestedToAddSum: nat,
    locSuggestedToDeleteSum: nat,
    locAddedSum: nat,
    locDeletedSum: nat)

  /** One feature's share of a record (`totals_by_feature`). */
  datatype TotalsByFeature = TotalsByFeature(
    feature: string,
    userInitiatedInteractionCount: nat,
    codeGenerationActivityCount: nat,
    codeAcceptanceActivityCount: nat,
    locSuggestedToAddSum: nat,
    locSuggestedToDeleteSum: nat,
    locAddedSum: nat,
    locDeletedSum: nat)

  /** One language-and-feature share of a record (`totals_by_language_feature`). */
  datatype TotalsByLanguageFeature = TotalsByLanguageFeature(
    language: string,
    feature: string,
    codeGenerationActivityCount: nat,
    codeAcceptanceActivityCount: nat,
    locSuggestedToAddSum: nat,
    locSuggestedToDeleteSum: nat,
    locAddedSum: nat,
    locDeletedSum: nat)

  /** One user's activity on one day. */
  datatype CopilotMetric = CopilotMetric(
    reportStartDay: string,
    reportEndDay: string,
    day: string,
    enterpriseId: string,
    userId: nat,
    userLogin: string,
    userInitiatedInteractionCount: nat,
    codeGenerationActivityCount: nat,
    codeAcceptanceActivityCount: nat,
    totalsByIde: seq<TotalsByIde>,
    totalsByFeature: seq<TotalsByFeature>,
    totalsByLanguageFeature: seq<TotalsByLanguageFeature>)

  datatype UserSummary = UserSummary(
    userLogin: string,
    userId: nat,
    totalInteractions: nat,
    totalCodeGenerated: nat,
    totalCodeAccepted: nat,
    acceptanceRate: nat,
    activeDays: nat,
    lastActiveDay: string,
    primaryIde: string,
    locAdded: nat,
    locSuggested: nat)

  datatype DailyMetrics = DailyMetrics(
    day: string,
    activeUsers: nat,
    totalInteractions: nat,
    totalCodeGenerated: nat,
    totalCodeAccepted: nat,
    acceptanceRate: nat)

  datatype FeatureMetrics = FeatureMetrics(
    feature: string,
    interactions: nat,
    codeGenerated: nat,
    codeAccepted: nat,
    acceptanceRate: nat)

  datatype IdeMetrics = IdeMetrics(
    ide: string,
    users: nat,
    interactions: nat,
    codeGenerated: nat,
    codeAccepted: nat)

  datatype LanguageMetrics = LanguageMetrics(
    language: string,
    codeGenerated: nat,
    codeAccepted: nat,
    acceptanceRate: nat)

  datatype GlobalStats = GlobalStats(
    totalUsers: nat,
    totalInteractions: nat,
    totalCodeGenerated: nat,
    totalCodeAccepted: nat,
    averageAcceptanceRate: nat,
    reportStartDay: string,
    reportEndDay: string,
    totalLocAdded: nat,
    totalLocSuggested: nat)

  // Named projections of a record, used as grouping keys and summands.

  function Login(m: CopilotMetric): string { m.userLogin }
  function Day(m: CopilotMetric): string { m.day }
  function Interactions(m: CopilotMetric): nat { m.userInitiatedInteractionCount }
  function Generated(m: CopilotMetric): nat { m.codeGenerationActivityCount }
  function Accepted(m: CopilotMetric): nat { m.codeAcceptanceActivityCount }

  function IdeLocAdded(t: TotalsByIde): nat { t.locAddedSum }
  function IdeLocSuggested(t: TotalsByIde): nat { t.locSuggestedToAddSum }

  /** Lines added over all editor breakdowns of one record. */
  function LocAdded(m: CopilotMetric): nat { SumOf(m.totalsByIde, IdeLocAdded) }

  /** Lines suggested over all editor breakdowns of one record. */
  function LocSuggested(m: CopilotMetric): nat { SumOf(m.totalsByIde, IdeLocSuggested) }
}
