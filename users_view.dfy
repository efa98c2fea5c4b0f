/**
 * `usersSummary`: one row per user login, with the user's totals over all
 * of the user's records, ordered by interactions, most first.  The method
 * follows the source's loops; the functions before it say what each row is.
 */
module UsersView {
  import opened Text
  import opened Folds
  import opened Sorting
  import opened Rates
  import opened MetricTypes

  /** The editor of a record's first breakdown, or "unknown" when it has none. */
  function PrimaryIde(m: CopilotMetric): string
  {
    if m.totalsByIde == [] then "unknown" else m.totalsByIde[0].ide
  }

  /** The latest of the days of `g`, comparing days as strings. */
  function LastDay(g: seq<CopilotMetric>): (d: string)
    requires g != []
    ensures exists i :: 0 <= i < |g| && d == g[i].day
    ensures forall i :: 0 <= i < |g| ==> !Less(d, g[i].day)
  {
    if |g| == 1 then
      LessIrreflexive(g[0].day);
      g[0].day
    else
      var init := g[..|g| - 1];
      var d := LastDay(init);
      var day := g[|g| - 1].day;
      LessIsStrictTotalOrder();
      var r := if Less(d, day) then day else d;
      assert forall i :: 0 <= i < |g| ==> !Less(r, g[i].day) by {
        forall i | 0 <= i < |g| ensures !Less(r, g[i].day) {
          if i < |init| {
            assert init[i] == g[i];
          }
        }
      }
      assert exists i :: 0 <= i < |g| && r == g[i].day by {
        if r == day {
          assert g[|g| - 1].day == r;
        } else {
          var i :| 0 <= i < |init| && d == init[i].day;
          assert g[i] == init[i];
        }
      }
      r
  }

  /**
   * The row of the user whose records are `g`, before its rate is filled in:
   * the identity fields and the editor from the first record, the counts
   * summed over every record, one active day per record.
   */
  function UserTally(g: seq<CopilotMetric>): UserSummary
    requires g != []
  {
    UserSummary(
      userLogin := g[0].userLogin,
      userId := g[0].userId,
      totalInteractions := SumOf(g, Interactions),
      totalCodeGenerated := SumOf(g, Generated),
      totalCodeAccepted := SumOf(g, Accepted),
      acceptanceRate := 0,
      activeDays := |g|,
      lastActiveDay := LastDay(g),
      primaryIde := PrimaryIde(g[0]),
      locAdded := SumOf(g, LocAdded),
      locSuggested := SumOf(g, LocSuggested))
  }

  /** The second pass over the rows: the rate from the row's own totals. */
  function WithRate(u: UserSummary): UserSummary
  {
    u.(acceptanceRate := AcceptanceRate(u.totalCodeAccepted, u.totalCodeGenerated))
  }

  /**
   * The user rows in first-seen order of the logins, before sorting: row `j`
   * is the `j`-th login met, with the id and the editor of that login's
   * first record, the sums of the counts over its records, one active day
   * per record and the latest of their days.
   */
  function UserRows(rs: seq<CopilotMetric>): (rows: seq<UserSummary>)
    ensures |rows| == |KeyOrder(rs, Login)|
    ensures forall j :: 0 <= j < |rows| ==>
      var g := Group(rs, Login, KeyOrder(rs, Login)[j]);
      && g != []
      && rows[j].userLogin == KeyOrder(rs, Login)[j]
      && rows[j].userId == g[0].userId
      && rows[j].primaryIde == PrimaryIde(g[0])
      && rows[j].totalInteractions == SumOf(g, Interactions)
      && rows[j].totalCodeGenerated == SumOf(g, Generated)
      && rows[j].totalCodeAccepted == SumOf(g, Accepted)
      && rows[j].acceptanceRate == AcceptanceRate(SumOf(g, Accepted), SumOf(g, Generated))
      && rows[j].activeDays == |g|
      && rows[j].lastActiveDay == LastDay(g)
      && rows[j].locAdded == SumOf(g, LocAdded)
      && rows[j].locSuggested == SumOf(g, LocSuggested)
  {
    var ks := KeyOrder(rs, Login);
    seq(|ks|, j requires 0 <= j < |ks| => WithRate(UserTally(Group(rs, Login, ks[j]))))
  }

  function TotalInteractionsOf(u: UserSummary): nat { u.totalInteractions }
  function TotalGeneratedOf(u: UserSummary): nat { u.totalCodeGenerated }
  function TotalAcceptedOf(u: UserSummary): nat { u.totalCodeAccepted }
  function UserLocAddedOf(u: UserSummary): nat { u.locAdded }
  function UserLocSuggestedOf(u: UserSummary): nat { u.locSuggested }
  function UserLoginOf(u: UserSummary): string { u.userLogin }

  /** The view: the user rows, stably sorted by interactions, most first. */
  function UsersSummaryOf(rs: seq<CopilotMetric>): seq<UserSummary>
  {
    Sort(UserRows(rs), TotalInteractionsOf, AtLeast)
  }

  /** `getUserMetrics(login)`: the records of `login`, in their original order. */
  function UserMetrics(rs: seq<CopilotMetric>, login: string): (g: seq<CopilotMetric>)
    ensures forall i :: 0 <= i < |g| ==> g[i].userLogin == login && g[i] in rs
    ensures g == [] <==> forall i :: 0 <= i < |rs| ==> rs[i].userLogin != login
  {
    GroupEmpty(rs, Login, login);
    Group(rs, Login, login)
  }

  /**
   * The filter keeps order and keeps every record of the user: it is taken
   * piece by piece, and a single record is kept exactly when it is the user's.
   */
  lemma UserMetricsIsFilter(xs: seq<CopilotMetric>, ys: seq<CopilotMetric>, m: CopilotMetric, login: string)
    ensures UserMetrics(xs + ys, login) == UserMetrics(xs, login) + UserMetrics(ys, login)
    ensures UserMetrics([m], login) == if m.userLogin == login then [m] else []
  {
    GroupAppend(xs, ys, Login, login);
    GroupSingleton(m, Login, login);
  }

  /** A known user's accumulator after absorbing one more record of theirs. */
  function Absorbed(existing: UserSummary, m: CopilotMetric, locAdded: nat, locSuggested: nat): UserSummary
  {
    existing.(
      totalInteractions := existing.totalInteractions + m.userInitiatedInteractionCount,
      totalCodeGenerated := existing.totalCodeGenerated + m.codeGenerationActivityCount,
      totalCodeAccepted := existing.totalCodeAccepted + m.codeAcceptanceActivityCount,
      activeDays := existing.activeDays + 1,
      lastActiveDay := if Less(existing.lastActiveDay, m.day) then m.day else existing.lastActiveDay,
      locAdded := existing.locAdded + locAdded,
      locSuggested := existing.locSuggested + locSuggested)
  }

  /** The accumulator a user's first record opens. */
  function FirstRecord(m: CopilotMetric, locAdded: nat, locSuggested: nat): UserSummary
  {
    UserSummary(
      userLogin := m.userLogin,
      userId := m.userId,
      totalInteractions := m.userInitiatedInteractionCount,
      totalCodeGenerated := m.codeGenerationActivityCount,
      totalCodeAccepted := m.codeAcceptanceActivityCount,
      acceptanceRate := 0,
      activeDays := 1,
      lastActiveDay := m.day,
      primaryIde := PrimaryIde(m),
      locAdded := locAdded,
      locSuggested := locSuggested)
  }

  /** One step of the first loop: what a further record of a known user changes. */
  lemma UserTallySnoc(g: seq<CopilotMetric>, m: CopilotMetric, existing: UserSummary)
    requires g != [] && existing == UserTally(g)
    ensures UserTally(g + [m]) == Absorbed(existing, m, LocAdded(m), LocSuggested(m))
  {
    var h := g + [m];
    assert h[..|h| - 1] == g;
    assert h[0] == g[0];
  }

  lemma UserTallySingleton(m: CopilotMetric)
    ensures UserTally([m]) == FirstRecord(m, LocAdded(m), LocSuggested(m))
  {
    assert [m] == [] + [m];
    SumOfSnoc([], m, Interactions);
    SumOfSnoc([], m, Generated);
    SumOfSnoc([], m, Accepted);
    SumOfSnoc([], m, LocAdded);
    SumOfSnoc([], m, LocSuggested);
  }

  lemma UserStepExisting(seen: seq<CopilotMetric>, m: CopilotMetric, userMap: map<string, UserSummary>, order: seq<string>)
    requires Accumulated(seen, Login, UserTally, userMap, order)
    requires m.userLogin in userMap
    ensures Accumulated(seen + [m], Login, UserTally,
                        userMap[m.userLogin := Absorbed(userMap[m.userLogin], m, LocAdded(m), LocSuggested(m))], order)
  {
    UserTallySnoc(Group(seen, Login, m.userLogin), m, userMap[m.userLogin]);
    AccumulatedStep(seen, m, Login, UserTally, userMap, order, Absorbed(userMap[m.userLogin], m, LocAdded(m), LocSuggested(m)));
  }

  lemma UserStepFresh(seen: seq<CopilotMetric>, m: CopilotMetric, userMap: map<string, UserSummary>, order: seq<string>)
    requires Accumulated(seen, Login, UserTally, userMap, order)
    requires m.userLogin !in userMap
    ensures Accumulated(seen + [m], Login, UserTally,
                        userMap[m.userLogin := FirstRecord(m, LocAdded(m), LocSuggested(m))], order + [m.userLogin])
  {
    assert Group(seen, Login, m.userLogin) + [m] == [m];
    UserTallySingleton(m);
    AccumulatedStep(seen, m, Login, UserTally, userMap, order, FirstRecord(m, LocAdded(m), LocSuggested(m)));
  }

  /** The rows read off the finished accumulator, in key order, are the user rows. */
  lemma UserRowsFromMap(rs: seq<CopilotMetric>, userMap: map<string, UserSummary>, order: seq<string>, rows: seq<UserSummary>)
    requires Accumulated(rs, Login, UserTally, userMap, order)
    requires |rows| == |order|
    requires forall t :: 0 <= t < |rows| ==> order[t] in userMap && rows[t] == WithRate(userMap[order[t]])
    ensures rows == UserRows(rs)
  {
  }

  /** The editor loop: lines added and suggested over a record's editor breakdowns. */
  method SumIdeLoc(metric: CopilotMetric) returns (locAdded: nat, locSuggested: nat)
    ensures locAdded == LocAdded(metric) && locSuggested == LocSuggested(metric)
  {
    locAdded, locSuggested := 0, 0;
    for j := 0 to |metric.totalsByIde|
      invariant locAdded == SumOf(metric.totalsByIde[..j], IdeLocAdded)
      invariant locSuggested == SumOf(metric.totalsByIde[..j], IdeLocSuggested)
    {
      var ide := metric.totalsByIde[j];
      assert metric.totalsByIde[..j + 1] == metric.totalsByIde[..j] + [ide];
      locAdded := locAdded + ide.locAddedSum;
      locSuggested := locSuggested + ide.locSuggestedToAddSum;
    }
    assert metric.totalsByIde[..|metric.totalsByIde|] == metric.totalsByIde;
  }

  /**
   * The body of the first loop of `usersSummary`: the record's user gets a
   * new accumulator, or its accumulator absorbs the record.
   */
  method AddUserRecord(userMap: map<string, UserSummary>, order: seq<string>, metric: CopilotMetric, ghost seen: seq<CopilotMetric>)
    returns (userMap': map<string, UserSummary>, order': seq<string>)
    requires Accumulated(seen, Login, UserTally, userMap, order)
    ensures Accumulated(seen + [metric], Login, UserTally, userMap', order')
  {
    var login := metric.userLogin;
    var locAdded, locSuggested := SumIdeLoc(metric);
    if login in userMap {
      UserStepExisting(seen, metric, userMap, order);
      userMap', order' := userMap[login := Absorbed(userMap[login], metric, locAdded, locSuggested)], order;
    } else {
      UserStepFresh(seen, metric, userMap, order);
      userMap', order' := userMap[login := FirstRecord(metric, locAdded, locSuggested)], order + [login];
    }
  }

  /**
   * The first loop of `usersSummary`: one accumulator per login in a `Map`,
   * with `order` the order in which the logins were first met.
   */
  method AccumulateUsers(metrics: seq<CopilotMetric>) returns (userMap: map<string, UserSummary>, order: seq<string>)
    ensures Accumulated(metrics, Login, UserTally, userMap, order)
  {
    userMap, order := map[], [];
    ghost var seen: seq<CopilotMetric> := [];
    AccumulatedEmpty(Login, UserTally);
    for i := 0 to |metrics|
      invariant seen == metrics[..i]
      invariant Accumulated(seen, Login, UserTally, userMap, order)
    {
      userMap, order := AddUserRecord(userMap, order, metrics[i], seen);
      PrefixSnoc(metrics, i);
      seen := seen + [metrics[i]];
    }
    assert seen == metrics;
  }

  /**
   * `Array.from(userMap.values())` followed by the second loop, which sets
   * each row's rate from the row's own totals.
   */
  method FillRates(userMap: map<string, UserSummary>, order: seq<string>) returns (rows: seq<UserSummary>)
    requires forall t :: 0 <= t < |order| ==> order[t] in userMap
    ensures |rows| == |order|
    ensures forall t :: 0 <= t < |rows| ==> rows[t] == WithRate(userMap[order[t]])
  {
    rows := seq(|order|, j requires 0 <= j < |order| => userMap[order[j]]);
    for j := 0 to |rows|
      invariant |rows| == |order|
      invariant forall t :: 0 <= t < j ==> rows[t] == WithRate(userMap[order[t]])
      invariant forall t :: j <= t < |rows| ==> rows[t] == userMap[order[t]]
    {
      var user := rows[j];
      rows := rows[j := user.(acceptanceRate :=
        if user.totalCodeGenerated > 0 then AcceptanceRate(user.totalCodeAccepted, user.totalCodeGenerated) else 0)];
    }
  }

  /** The computed property `usersSummary`. */
  method ComputeUsersSummary(metrics: seq<CopilotMetric>) returns (users: seq<UserSummary>)
    ensures users == UsersSummaryOf(metrics)
  {
    var userMap, order := AccumulateUsers(metrics);
    var rows := FillRates(userMap, order);
    UserRowsFromMap(metrics, userMap, order, rows);
    users := Sort(rows, TotalInteractionsOf, AtLeast);
  }

  /** A row of the view is the rated tally of the records of its login. */
  lemma UserRowIsTally(rs: seq<CopilotMetric>, u: UserSummary)
    requires u in UsersSummaryOf(rs)
    ensures UserMetrics(rs, u.userLogin) != []
    ensures u == WithRate(UserTally(UserMetrics(rs, u.userLogin)))
  {
    var rows := UserRows(rs);
    SortSameElements(rows, TotalInteractionsOf, AtLeast);
    var j :| 0 <= j < |rows| && rows[j] == u;
    var g := Group(rs, Login, KeyOrder(rs, Login)[j]);
    assert g == UserMetrics(rs, u.userLogin);
    assert u == WithRate(UserTally(g));
  }

  /**
   * A row's identity and editor come from the first record of its login,
   * and are not changed by the user's later records.
   */
  lemma UserRowFirstSeen(rs: seq<CopilotMetric>, u: UserSummary)
    requires u in UsersSummaryOf(rs)
    ensures exists i :: 0 <= i < |rs| && rs[i].userLogin == u.userLogin
                        && (forall j :: 0 <= j < i ==> rs[j].userLogin != u.userLogin)
                        && u.userId == rs[i].userId && u.primaryIde == PrimaryIde(rs[i])
  {
    UserRowIsTally(rs, u);
    GroupHeadIsFirst(rs, Login, u.userLogin);
  }

  /**
   * A row's totals, lines and active days add up the records of its login
   * (one active day per record), and its rate is that of its own totals.
   */
  lemma UserRowTotals(rs: seq<CopilotMetric>, u: UserSummary)
    requires u in UsersSummaryOf(rs)
    ensures u.totalInteractions == SumOf(UserMetrics(rs, u.userLogin), Interactions)
    ensures u.totalCodeGenerated == SumOf(UserMetrics(rs, u.userLogin), Generated)
    ensures u.totalCodeAccepted == SumOf(UserMetrics(rs, u.userLogin), Accepted)
    ensures u.activeDays == |UserMetrics(rs, u.userLogin)|
    ensures u.locAdded == SumOf(UserMetrics(rs, u.userLogin), LocAdded)
    ensures u.locSuggested == SumOf(UserMetrics(rs, u.userLogin), LocSuggested)
    ensures u.acceptanceRate == AcceptanceRate(u.totalCodeAccepted, u.totalCodeGenerated)
  {
    UserRowIsTally(rs, u);
  }

  /** A row's last active day is the latest day among the records of its login. */
  lemma UserRowLastDay(rs: seq<CopilotMetric>, u: UserSummary)
    requires u in UsersSummaryOf(rs)
    ensures exists i :: 0 <= i < |rs| && rs[i].userLogin == u.userLogin && rs[i].day == u.lastActiveDay
    ensures forall i :: 0 <= i < |rs| && rs[i].userLogin == u.userLogin ==> !Less(u.lastActiveDay, rs[i].day)
  {
    UserRowIsTally(rs, u);
    var g := UserMetrics(rs, u.userLogin);
    var d :| 0 <= d < |g| && u.lastActiveDay == g[d].day;
    assert g[d] in rs;
    forall i | 0 <= i < |rs| && rs[i].userLogin == u.userLogin
      ensures !Less(u.lastActiveDay, rs[i].day)
    {
      GroupMember(rs, Login, i);
    }
  }

  /** Every login of the records has a row. */
  lemma EveryUserHasRow(rs: seq<CopilotMetric>, i: nat)
    requires i < |rs|
    ensures exists j :: 0 <= j < |UsersSummaryOf(rs)| && UsersSummaryOf(rs)[j].userLogin == rs[i].userLogin
  {
    var t := KeyOrderIndex(rs, Login, i);
    var j := SortedPosition(UserRows(rs), TotalInteractionsOf, AtLeast, t);
    assert UsersSummaryOf(rs)[j].userLogin == rs[i].userLogin;
  }

  /**
   * No login has two rows, and there are as many rows as distinct logins:
   * with `EveryUserHasRow`, rows and logins correspond one to one.
   */
  lemma OneRowPerUser(rs: seq<CopilotMetric>)
    ensures DistinctBy(UsersSummaryOf(rs), UserLoginOf)
    ensures |UsersSummaryOf(rs)| == |KeySet(rs, Login)|
  {
    var rows := UserRows(rs);
    KeyOrderCardinality(rs, Login);
    assert |multiset(UsersSummaryOf(rs))| == |multiset(rows)|;
    assert DistinctBy(rows, UserLoginOf);
    SortDistinctBy(rows, TotalInteractionsOf, AtLeast, UserLoginOf);
  }

  /**
   * The order of the view: interactions never increase down the list, the
   * rows are those of `UserRows`, and rows with equal interactions keep the
   * order in which their logins were first met.
   */
  lemma UsersOrdered(rs: seq<CopilotMetric>)
    ensures forall i, j :: 0 <= i < j < |UsersSummaryOf(rs)| ==>
      UsersSummaryOf(rs)[i].totalInteractions >= UsersSummaryOf(rs)[j].totalInteractions
    ensures multiset(UsersSummaryOf(rs)) == multiset(UserRows(rs))
    ensures forall n: nat :: Group(UsersSummaryOf(rs), TotalInteractionsOf, n) == Group(UserRows(rs), TotalInteractionsOf, n)
  {
    AtLeastIsTotalPreorder();
    SortSorted(UserRows(rs), TotalInteractionsOf, AtLeast);
    forall n: nat ensures Group(UsersSummaryOf(rs), TotalInteractionsOf, n) == Group(UserRows(rs), TotalInteractionsOf, n) {
      SortStable(UserRows(rs), TotalInteractionsOf, AtLeast, n);
    }
  }
}
