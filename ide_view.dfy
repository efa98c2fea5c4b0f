/**
 * `ideMetrics`: one row per editor met in the records' editor breakdowns,
 * with the number of distinct users seen in that editor and its totals over
 * every such breakdown, under its display name, ordered by number of users,
 * most first.
 */
module IdeView {
  import opened Folds
  import opened Sorting
  import opened DisplayNames
  import opened MetricTypes

  /** An editor breakdown together with the login of the record it came from. */
  datatype IdeUse = IdeUse(login: string, totals: TotalsByIde)

  function IdeUses(m: CopilotMetric): (uses: seq<IdeUse>)
    ensures |uses| == |m.totalsByIde|
    ensures forall j :: 0 <= j < |uses| ==> uses[j] == IdeUse(m.userLogin, m.totalsByIde[j])
  {
    seq(|m.totalsByIde|, j requires 0 <= j < |m.totalsByIde| => IdeUse(m.userLogin, m.totalsByIde[j]))
  }

  function IdeKey(u: IdeUse): string { u.totals.ide }
  function UseLogin(u: IdeUse): string { u.login }
  function UseInteractions(u: IdeUse): nat { u.totals.userInitiatedInteractionCount }
  function UseGenerated(u: IdeUse): nat { u.totals.codeGenerationActivityCount }
  function UseAccepted(u: IdeUse): nat { u.totals.codeAcceptanceActivityCount }

  /** Every editor breakdown of the records, record by record. */
  function IdeEntries(rs: seq<CopilotMetric>): seq<IdeUse>
  {
    Flatten(rs, IdeUses)
  }

  datatype IdeTally = IdeTally(users: set<string>, interactions: nat, generated: nat, accepted: nat)

  /** The accumulator of the editor whose breakdowns are `g`. */
  function IdeTallyOf(g: seq<IdeUse>): IdeTally
  {
    IdeTally(KeySet(g, UseLogin), SumOf(g, UseInteractions), SumOf(g, UseGenerated), SumOf(g, UseAccepted))
  }

  /** An editor's row: its display name, its user count and its totals. */
  function IdeRow(ide: string, t: IdeTally): IdeMetrics
  {
    IdeMetrics(FormatIdeName(ide), |t.users|, t.interactions, t.generated, t.accepted)
  }

  /**
   * The editor rows in first-seen order of the editors, before sorting:
   * row `j` is the display name of the `j`-th editor met, with the number
   * of distinct logins among that editor's breakdowns and the sums of their
   * counts.
   */
  function IdeRows(rs: seq<CopilotMetric>): (rows: seq<IdeMetrics>)
    ensures |rows| == |KeyOrder(IdeEntries(rs), IdeKey)|
    ensures forall j :: 0 <= j < |rows| ==>
      var k := KeyOrder(IdeEntries(rs), IdeKey)[j];
      var g := Group(IdeEntries(rs), IdeKey, k);
      && g != []
      && rows[j].ide == FormatIdeName(k)
      && rows[j].users == |KeySet(g, UseLogin)|
      && rows[j].interactions == SumOf(g, UseInteractions)
      && rows[j].codeGenerated == SumOf(g, UseGenerated)
      && rows[j].codeAccepted == SumOf(g, UseAccepted)
  {
    var items := IdeEntries(rs);
    var ks := KeyOrder(items, IdeKey);
    seq(|ks|, j requires 0 <= j < |ks| => IdeRow(ks[j], IdeTallyOf(Group(items, IdeKey, ks[j]))))
  }

  function RowUsers(i: IdeMetrics): nat { i.users }
  function RowInteractions(i: IdeMetrics): nat { i.interactions }
  function RowGenerated(i: IdeMetrics): nat { i.codeGenerated }
  function RowAccepted(i: IdeMetrics): nat { i.codeAccepted }

  /** The view: the editor rows, stably sorted by number of users, most first. */
  function IdeMetricsOf(rs: seq<CopilotMetric>): seq<IdeMetrics>
  {
    Sort(IdeRows(rs), RowUsers, AtLeast)
  }

  /** The accumulator after adding one more breakdown of an editor already met. */
  function Bumped(existing: IdeTally, login: string, ide: TotalsByIde): IdeTally
  {
    IdeTally(
      existing.users + {login},
      existing.interactions + ide.userInitiatedInteractionCount,
      existing.generated + ide.codeGenerationActivityCount,
      existing.accepted + ide.codeAcceptanceActivityCount)
  }

  /** The accumulator of an editor met for the first time. */
  function Fresh(login: string, ide: TotalsByIde): IdeTally
  {
    IdeTally({login}, ide.userInitiatedInteractionCount, ide.codeGenerationActivityCount, ide.codeAcceptanceActivityCount)
  }

  lemma IdeTallySnoc(g: seq<IdeUse>, u: IdeUse, existing: IdeTally)
    requires existing == IdeTallyOf(g)
    ensures IdeTallyOf(g + [u]) == Bumped(existing, u.login, u.totals)
  {
    KeySetSnoc(g, u, UseLogin);
    SumOfSnoc(g, u, UseInteractions);
    SumOfSnoc(g, u, UseGenerated);
    SumOfSnoc(g, u, UseAccepted);
  }

  lemma IdeTallySingleton(u: IdeUse)
    ensures IdeTallyOf([u]) == Fresh(u.login, u.totals)
  {
    assert KeySet([], UseLogin) == {};
    IdeTallySnoc([], u, IdeTally({}, 0, 0, 0));
    assert [] + [u] == [u];
  }

  lemma IdeStepExisting(seen: seq<IdeUse>, login: string, ide: TotalsByIde, ideMap: map<string, IdeTally>, order: seq<string>)
    requires Accumulated(seen, IdeKey, IdeTallyOf, ideMap, order)
    requires ide.ide in ideMap
    ensures Accumulated(seen + [IdeUse(login, ide)], IdeKey, IdeTallyOf, ideMap[ide.ide := Bumped(ideMap[ide.ide], login, ide)], order)
  {
    var u := IdeUse(login, ide);
    IdeTallySnoc(Group(seen, IdeKey, ide.ide), u, ideMap[ide.ide]);
    AccumulatedStep(seen, u, IdeKey, IdeTallyOf, ideMap, order, Bumped(ideMap[ide.ide], login, ide));
  }

  lemma IdeStepFresh(seen: seq<IdeUse>, login: string, ide: TotalsByIde, ideMap: map<string, IdeTally>, order: seq<string>)
    requires Accumulated(seen, IdeKey, IdeTallyOf, ideMap, order)
    requires ide.ide !in ideMap
    ensures Accumulated(seen + [IdeUse(login, ide)], IdeKey, IdeTallyOf, ideMap[ide.ide := Fresh(login, ide)], order + [ide.ide])
  {
    var u := IdeUse(login, ide);
    assert Group(seen, IdeKey, ide.ide) + [u] == [u];
    IdeTallySingleton(u);
    AccumulatedStep(seen, u, IdeKey, IdeTallyOf, ideMap, order, Fresh(login, ide));
  }

  /** The body of the inner loop of `ideMetrics`. */
  method AddIdeEntry(ideMap: map<string, IdeTally>, order: seq<string>, login: string, ide: TotalsByIde,
                     ghost seen: seq<IdeUse>)
    returns (ideMap': map<string, IdeTally>, order': seq<string>)
    requires Accumulated(seen, IdeKey, IdeTallyOf, ideMap, order)
    ensures Accumulated(seen + [IdeUse(login, ide)], IdeKey, IdeTallyOf, ideMap', order')
  {
    var key := ide.ide;
    if key in ideMap {
      IdeStepExisting(seen, login, ide, ideMap, order);
      ideMap', order' := ideMap[key := Bumped(ideMap[key], login, ide)], order;
    } else {
      IdeStepFresh(seen, login, ide, ideMap, order);
      ideMap', order' := ideMap[key := Fresh(login, ide)], order + [key];
    }
  }

  /** The two loops of `ideMetrics`: one accumulator per editor. */
  method AccumulateIdes(metrics: seq<CopilotMetric>) returns (ideMap: map<string, IdeTally>, order: seq<string>)
    ensures Accumulated(IdeEntries(metrics), IdeKey, IdeTallyOf, ideMap, order)
  {
    ideMap, order := map[], [];
    ghost var seen: seq<IdeUse> := [];
    AccumulatedEmpty(IdeKey, IdeTallyOf);
    for i := 0 to |metrics|
      invariant seen == IdeEntries(metrics[..i])
      invariant Accumulated(seen, IdeKey, IdeTallyOf, ideMap, order)
    {
      var metric := metrics[i];
      ghost var done := seen;
      ghost var uses := IdeUses(metric);
      for j := 0 to |metric.totalsByIde|
        invariant seen == done + uses[..j]
        invariant Accumulated(seen, IdeKey, IdeTallyOf, ideMap, order)
      {
        ideMap, order := AddIdeEntry(ideMap, order, metric.userLogin, metric.totalsByIde[j], seen);
        InnerPrefixSnoc(done, uses, j);
        seen := seen + [uses[j]];
      }
      PrefixSnoc(metrics, i);
      FlattenSnoc(metrics[..i], metric, IdeUses);
      assert uses[..|uses|] == uses;
    }
    assert metrics[..|metrics|] == metrics;
  }

  lemma IdeRowsFromMap(rs: seq<CopilotMetric>, ideMap: map<string, IdeTally>, order: seq<string>, rows: seq<IdeMetrics>)
    requires Accumulated(IdeEntries(rs), IdeKey, IdeTallyOf, ideMap, order)
    requires |rows| == |order|
    requires forall t :: 0 <= t < |rows| ==> order[t] in ideMap && rows[t] == IdeRow(order[t], ideMap[order[t]])
    ensures rows == IdeRows(rs)
  {
  }

  /** The computed property `ideMetrics`. */
  method ComputeIdeMetrics(metrics: seq<CopilotMetric>) returns (ides: seq<IdeMetrics>)
    ensures ides == IdeMetricsOf(metrics)
  {
    var ideMap, order := AccumulateIdes(metrics);
    // Array.from(ideMap.entries()).map(...)
    var rows := seq(|order|, j requires 0 <= j < |order| => IdeRow(order[j], ideMap[order[j]]));
    IdeRowsFromMap(metrics, ideMap, order, rows);
    ides := Sort(rows, RowUsers, AtLeast);
  }

  /**
   * Every row belongs to one editor met in the breakdowns: it shows that
   * editor's display name, counts the distinct logins of the records that
   * carried a breakdown for it, and adds up all of its breakdowns.
   */
  lemma IdeRowMeaning(rs: seq<CopilotMetric>, r: IdeMetrics)
    requires r in IdeMetricsOf(rs)
    ensures exists k ::
      && k in KeySet(IdeEntries(rs), IdeKey)
      && r.ide == FormatIdeName(k)
      && r.users == |KeySet(Group(IdeEntries(rs), IdeKey, k), UseLogin)|
      && r.interactions == SumOf(Group(IdeEntries(rs), IdeKey, k), UseInteractions)
      && r.codeGenerated == SumOf(Group(IdeEntries(rs), IdeKey, k), UseGenerated)
      && r.codeAccepted == SumOf(Group(IdeEntries(rs), IdeKey, k), UseAccepted)
  {
    var rows := IdeRows(rs);
    SortSameElements(rows, RowUsers, AtLeast);
    var j :| 0 <= j < |rows| && rows[j] == r;
    KeyOrderCoversKeySet(IdeEntries(rs), IdeKey);
    assert KeyOrder(IdeEntries(rs), IdeKey)[j] in KeyOrder(IdeEntries(rs), IdeKey);
  }

  /** An editor's user count never exceeds the number of its breakdowns. */
  lemma IdeUsersBound(rs: seq<CopilotMetric>, k: string)
    ensures |IdeTallyOf(Group(IdeEntries(rs), IdeKey, k)).users| <= |Group(IdeEntries(rs), IdeKey, k)|
  {
    KeySetBound(Group(IdeEntries(rs), IdeKey, k), UseLogin);
  }

  /**
   * One row per distinct raw editor name, the user count never increases
   * down the list, ties keep first-seen order, and the rows' totals add up
   * to the totals of all editor breakdowns.
   */
  lemma IdesOrderedAndConserved(rs: seq<CopilotMetric>)
    ensures |IdeMetricsOf(rs)| == |KeySet(IdeEntries(rs), IdeKey)|
    ensures forall i, j :: 0 <= i < j < |IdeMetricsOf(rs)| ==> IdeMetricsOf(rs)[i].users >= IdeMetricsOf(rs)[j].users
    ensures forall n: nat :: Group(IdeMetricsOf(rs), RowUsers, n) == Group(IdeRows(rs), RowUsers, n)
    ensures SumOf(IdeMetricsOf(rs), RowInteractions) == SumOf(IdeEntries(rs), UseInteractions)
    ensures SumOf(IdeMetricsOf(rs), RowGenerated) == SumOf(IdeEntries(rs), UseGenerated)
    ensures SumOf(IdeMetricsOf(rs), RowAccepted) == SumOf(IdeEntries(rs), UseAccepted)
  {
    var items := IdeEntries(rs);
    var rows := IdeRows(rs);
    var ks := KeyOrder(items, IdeKey);
    KeyOrderCardinality(items, IdeKey);
    assert |multiset(IdeMetricsOf(rs))| == |multiset(rows)|;
    AtLeastIsTotalPreorder();
    SortSorted(rows, RowUsers, AtLeast);
    forall n: nat ensures Group(IdeMetricsOf(rs), RowUsers, n) == Group(rows, RowUsers, n) {
      SortStable(rows, RowUsers, AtLeast, n);
    }
    SortSum(rows, RowUsers, AtLeast, RowInteractions);
    SortSum(rows, RowUsers, AtLeast, RowGenerated);
    SortSum(rows, RowUsers, AtLeast, RowAccepted);
    SumOfRows(rows, RowInteractions, ks, items, IdeKey, UseInteractions);
    SumOfRows(rows, RowGenerated, ks, items, IdeKey, UseGenerated);
    SumOfRows(rows, RowAccepted, ks, items, IdeKey, UseAccepted);
    GroupTotalsAddUp(items, IdeKey, UseInteractions);
    GroupTotalsAddUp(items, IdeKey, UseGenerated);
    GroupTotalsAddUp(items, IdeKey, UseAccepted);
  }
}
