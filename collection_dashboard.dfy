/** The collection dashboard (src/components/CollectionDashboard.tsx): the
    per-currency amounts of each category row and of each member row, the
    member total shown in several currencies or converted to one, and the
    initial display currency of the member tab. The dashboard's groups are
    the collection's groups, `Aggregates.IncludedGroups`. */
module CollectionDashboardView {
  import opened Types
  import opened Seqs
  import opened Buckets
  import opened Currencies
  import Aggregates
  import CollectionStatsView

  // ---------------------------------------------------------------- member display currency

  /** The initial `memberDisplayCurrency`: one currency exactly when every
      group of the collection uses it. */
  function InitialMemberDisplay(c: Collection, groups: seq<Group>): (d: CollectionStatsView.DisplayCurrency)
    ensures var gs := Aggregates.IncludedGroups(c, groups);
      d.In? <==> |gs| > 0 && forall g :: g in gs ==> g.currency == gs[0].currency
    ensures d.In? ==> forall g :: g in Aggregates.IncludedGroups(c, groups) ==> g.currency == d.currency
  {
    var gs := Aggregates.IncludedGroups(c, groups);
    CollectionStatsView.OneCurrency(gs);
    CollectionStatsView.InitialDisplay(UniqueCurrencies(CollectionStatsView.GroupCurrencies(gs)))
  }

  // ---------------------------------------------------------------- category rows

  function HasCategory(category: string): CombinedExpense -> bool
  {
    (x: CombinedExpense) => x.expense.category == category
  }

  function CurrencyAmounts(xs: seq<CombinedExpense>): (ps: seq<(Currency, real)>)
    ensures |ps| == |xs|
    ensures forall i :: 0 <= i < |xs| ==> ps[i] == (xs[i].currency, xs[i].expense.amount)
  {
    seq(|xs|, i requires 0 <= i < |xs| => (xs[i].currency, xs[i].expense.amount))
  }

  /** `categoryByCurrency`: the feed's expenses of exactly this category,
      their amounts accumulated by currency. */
  function CategoryByCurrency(feed: seq<CombinedExpense>, category: string): seq<(Currency, real)>
  {
    Accumulate(CurrencyAmounts(Filter(feed, HasCategory(category))))
  }

  /** One expense of the feed, as a change to the accumulator. */
  lemma CategoryStep(feed: seq<CombinedExpense>, category: string, i: nat)
    requires i < |feed|
    ensures var x := feed[i];
      var p := HasCategory(category);
      Accumulate(CurrencyAmounts(Filter(feed[..i + 1], p))) ==
      if x.expense.category == category then Add(Accumulate(CurrencyAmounts(Filter(feed[..i], p))), x.currency, x.expense.amount)
      else Accumulate(CurrencyAmounts(Filter(feed[..i], p)))
  {
    var p := HasCategory(category);
    var x := feed[i];
    var kept := Filter(feed[..i], p);
    assert feed[..i + 1] == feed[..i] + [x];
    FilterSnoc(feed[..i], x, p);
    if x.expense.category == category {
      assert CurrencyAmounts(kept + [x]) == CurrencyAmounts(kept) + [(x.currency, x.expense.amount)];
      AccumulateSnoc(CurrencyAmounts(kept), x.currency, x.expense.amount);
    } else {
      assert Filter(feed[..i + 1], p) == kept + [];
      assert Filter(feed[..i + 1], p) == kept;
    }
  }

  /** The reduce over the feed, bumping the accumulator for each expense of
      the category. */
  method ComputeCategoryByCurrency(feed: seq<CombinedExpense>, category: string) returns (acc: seq<(Currency, real)>)
    ensures acc == CategoryByCurrency(feed, category)
  {
    acc := [];
    var i := 0;
    while i < |feed|
      invariant 0 <= i <= |feed|
      invariant acc == Accumulate(CurrencyAmounts(Filter(feed[..i], HasCategory(category))))
    {
      CategoryStep(feed, category, i);
      var x := feed[i];
      if x.expense.category == category {
        acc := Add(acc, x.currency, x.expense.amount);
      }
      i := i + 1;
    }
    assert feed[..|feed|] == feed;
  }

  function AmountIn(category: string): CombinedExpense -> real
  {
    (x: CombinedExpense) => if x.expense.category == category then x.expense.amount else 0.0
  }

  function ExpenseAmountIn(category: string): Expense -> real
  {
    (e: Expense) => if e.category == category then e.amount else 0.0
  }

  lemma {:induction false} SumForCategory(es: seq<Expense>, category: string)
    ensures SumFor(CategoryPairs(es), category) == SumOf(es, ExpenseAmountIn(category))
  {
    if |es| > 0 {
      var n := |es| - 1;
      assert CategoryPairs(es)[..n] == CategoryPairs(es[..n]);
      SumForCategory(es[..n], category);
    }
  }

  /** The stream of placed expenses, seen without groups, is the visit of all expenses. */
  lemma {:induction false} FlattenExpenses(gs: seq<Group>)
    ensures |Aggregates.Flatten(gs)| == |Aggregates.AllExpenses(gs)|
    ensures forall i :: 0 <= i < |Aggregates.Flatten(gs)| ==> Aggregates.Flatten(gs)[i].1 == Aggregates.AllExpenses(gs)[i]
  {
    if |gs| > 0 {
      FlattenExpenses(gs[..|gs| - 1]);
    }
  }

  lemma FeedCategorySum(c: Collection, groups: seq<Group>, category: string)
    ensures SumOf(Aggregates.CombinedFeed(c, groups), AmountIn(category)) ==
      SumOf(Aggregates.AllExpenses(Aggregates.IncludedGroups(c, groups)), ExpenseAmountIn(category))
  {
    var gs := Aggregates.IncludedGroups(c, groups);
    var xs := Aggregates.CombinedOf(Aggregates.Flatten(gs));
    SortDescSum(xs, Aggregates.CombinedDate, AmountIn(category));
    FlattenExpenses(gs);
    SumOfPointwise(xs, Aggregates.AllExpenses(gs), AmountIn(category), ExpenseAmountIn(category));
  }

  /** Each category row's currency amounts have one entry per currency and
      add up to the row's amount in the statistics. */
  lemma CategoryByCurrencySpec(c: Collection, groups: seq<Group>, t: CategoryTotal)
    requires t in Aggregates.StatsOf(c, groups).categoryBreakdown
    ensures var r := CategoryByCurrency(Aggregates.CombinedFeed(c, groups), t.category);
      Distinct(KeysOf(r)) && SumOf(r, Value) == t.amount
  {
    var feed := Aggregates.CombinedFeed(c, groups);
    var p := HasCategory(t.category);
    var kept := Filter(feed, p);
    var ps := CurrencyAmounts(kept);
    AccumulateKeys(ps);
    AccumulateSum(ps);
    forall i | 0 <= i < |kept| ensures Value(ps[i]) == AmountIn(t.category)(kept[i]) {
      assert kept[i] in kept;
    }
    SumOfPointwise(ps, kept, Value, AmountIn(t.category));
    FilterSum(feed, p, AmountIn(t.category));
    FeedCategorySum(c, groups, t.category);
    SumForCategory(Aggregates.AllExpenses(Aggregates.IncludedGroups(c, groups)), t.category);
    Aggregates.StatsCategoriesSpec(c, groups);
  }

  // ---------------------------------------------------------------- member rows

  /** `collectionGroups.find(g => g.id === id)`. */
  function FindGroup(gs: seq<Group>, id: string): (r: Option<Group>)
    ensures r.Some? ==> r.value in gs && r.value.id == id
    ensures r.Some? ==> exists i :: 0 <= i < |gs| && gs[i] == r.value && forall k :: 0 <= k < i ==> gs[k].id != id
    ensures r.None? <==> forall g :: g in gs ==> g.id != id
  {
    if |gs| == 0 then None
    else if gs[0].id == id then Some(gs[0])
    else
      var r := FindGroup(gs[1..], id);
      if r.Some? then
        var j :| 0 <= j < |gs| - 1 && gs[1..][j] == r.value && forall k :: 0 <= k < j ==> gs[1..][k].id != id;
        assert gs[j + 1] == r.value;
        r
      else r
  }

  /** The accumulator bumps of a member row: one per group share whose
      group is among the collection's groups, in that group's currency. */
  function MemberCurrencyPairs(bs: seq<GroupShare>, gs: seq<Group>): seq<(Currency, real)>
  {
    if |bs| == 0 then []
    else
      var b := bs[|bs| - 1];
      var g := FindGroup(gs, b.groupId);
      MemberCurrencyPairs(bs[..|bs| - 1], gs) + (if g.Some? then [(g.value.currency, b.amount)] else [])
  }

  /** `memberByCurrency`. */
  function MemberByCurrency(bs: seq<GroupShare>, gs: seq<Group>): seq<(Currency, real)>
  {
    Accumulate(MemberCurrencyPairs(bs, gs))
  }

  lemma MemberCurrencyPairsStep(bs: seq<GroupShare>, gs: seq<Group>, i: nat)
    requires i < |bs|
    ensures var g := FindGroup(gs, bs[i].groupId);
      MemberCurrencyPairs(bs[..i + 1], gs) ==
      MemberCurrencyPairs(bs[..i], gs) + (if g.Some? then [(g.value.currency, bs[i].amount)] else [])
  {
    assert bs[..i + 1][..i] == bs[..i];
  }

  /** The reduce over a member's group breakdown. */
  method ComputeMemberByCurrency(bs: seq<GroupShare>, gs: seq<Group>) returns (acc: seq<(Currency, real)>)
    ensures acc == MemberByCurrency(bs, gs)
  {
    acc := [];
    var i := 0;
    while i < |bs|
      invariant 0 <= i <= |bs|
      invariant acc == Accumulate(MemberCurrencyPairs(bs[..i], gs))
    {
      MemberCurrencyPairsStep(bs, gs, i);
      var group := FindGroup(gs, bs[i].groupId);
      if group.Some? {
        AccumulateSnoc(MemberCurrencyPairs(bs[..i], gs), group.value.currency, bs[i].amount);
        acc := Add(acc, group.value.currency, bs[i].amount);
      } else {
        assert MemberCurrencyPairs(bs[..i + 1], gs) == MemberCurrencyPairs(bs[..i], gs);
      }
      i := i + 1;
    }
    assert bs[..|bs|] == bs;
  }

  function KnownShare(gs: seq<Group>): GroupShare -> real
  {
    (b: GroupShare) => if FindGroup(gs, b.groupId).Some? then b.amount else 0.0
  }

  /** The currency amounts of a member row add up to its shares in the
      collection's groups; shares of other groups are skipped. */
  lemma {:induction false} MemberCurrencyPairsSum(bs: seq<GroupShare>, gs: seq<Group>)
    ensures SumOf(MemberCurrencyPairs(bs, gs), Value) == SumOf(bs, KnownShare(gs))
  {
    if |bs| > 0 {
      var n := |bs| - 1;
      var b := bs[n];
      var g := FindGroup(gs, b.groupId);
      var last: seq<(Currency, real)> := if g.Some? then [(g.value.currency, b.amount)] else [];
      MemberCurrencyPairsSum(bs[..n], gs);
      SumOfAppend(MemberCurrencyPairs(bs[..n], gs), last, Value);
      if g.Some? {
        SumOfCons((g.value.currency, b.amount), [], Value);
      }
    }
  }

  /** Every currency of a member row is the currency of one of the
      collection's groups. */
  lemma {:induction false} MemberCurrencyPairsKeys(bs: seq<GroupShare>, gs: seq<Group>)
    ensures forall k :: k in KeysOf(MemberCurrencyPairs(bs, gs)) ==> exists g :: g in gs && g.currency == k
  {
    if |bs| > 0 {
      var n := |bs| - 1;
      var g := FindGroup(gs, bs[n].groupId);
      var prev := MemberCurrencyPairs(bs[..n], gs);
      var last: seq<(Currency, real)> := if g.Some? then [(g.value.currency, bs[n].amount)] else [];
      MemberCurrencyPairsKeys(bs[..n], gs);
      assert KeysOf(prev + last) == KeysOf(prev) + KeysOf(last);
    }
  }

  function GroupIds(gs: seq<Group>): set<string>
  {
    set g | g in gs :: g.id
  }

  predicate SharesIn(bs: seq<GroupShare>, ids: set<string>)
  {
    forall b :: b in bs ==> b.groupId in ids
  }

  lemma {:induction false} SplitEntriesFrom(g: Group, splits: seq<ExpenseSplit>)
    ensures forall e :: e in Aggregates.SplitEntries(g, splits) ==> e.groupId == g.id
  {
    if |splits| > 0 {
      SplitEntriesFrom(g, splits[..|splits| - 1]);
    }
  }

  lemma {:induction false} StreamEntriesFrom(stream: seq<Aggregates.Placed>, ids: set<string>)
    requires forall p :: p in stream ==> p.0.id in ids
    ensures forall e :: e in Aggregates.StreamEntries(stream) ==> e.groupId in ids
  {
    if |stream| > 0 {
      var n := |stream| - 1;
      assert forall p :: p in stream[..n] ==> p in stream;
      StreamEntriesFrom(stream[..n], ids);
      SplitEntriesFrom(stream[n].0, stream[n].1.splits);
    }
  }

  lemma {:induction false} AddShareIn(bs: seq<GroupShare>, e: Aggregates.MemberEntry, ids: set<string>)
    requires SharesIn(bs, ids) && e.groupId in ids
    ensures SharesIn(Aggregates.AddShare(bs, e), ids)
  {
    if |bs| > 0 && bs[0].groupId != e.groupId {
      AddShareIn(bs[1..], e, ids);
    }
  }

  predicate RowsIn(acc: seq<MemberTotal>, ids: set<string>)
  {
    forall t :: t in acc ==> SharesIn(t.groupBreakdown, ids)
  }

  lemma {:induction false} BumpMemberIn(acc: seq<MemberTotal>, e: Aggregates.MemberEntry, ids: set<string>)
    requires RowsIn(acc, ids) && e.groupId in ids
    ensures RowsIn(Aggregates.BumpMember(acc, e), ids)
  {
    if |acc| == 0 {
    } else if acc[0].memberName == e.name {
      AddShareIn(acc[0].groupBreakdown, e, ids);
    } else {
      BumpMemberIn(acc[1..], e, ids);
    }
  }

  lemma {:induction false} FoldMembersIn(es: seq<Aggregates.MemberEntry>, ids: set<string>)
    requires forall e :: e in es ==> e.groupId in ids
    ensures RowsIn(Aggregates.FoldMembers([], es), ids)
  {
    if |es| > 0 {
      var n := |es| - 1;
      assert forall e :: e in es[..n] ==> e in es;
      FoldMembersIn(es[..n], ids);
      BumpMemberIn(Aggregates.FoldMembers([], es[..n]), es[n], ids);
    }
  }

  /** Every group share of a member row belongs to one of the collection's groups. */
  lemma MemberRowsFromCollection(c: Collection, groups: seq<Group>)
    ensures var gs := Aggregates.IncludedGroups(c, groups);
      RowsIn(Aggregates.StatsOf(c, groups).memberBreakdown, GroupIds(gs))
  {
    var gs := Aggregates.IncludedGroups(c, groups);
    var stream := Aggregates.Flatten(gs);
    Aggregates.FlattenMembership(gs);
    StreamEntriesFrom(stream, GroupIds(gs));
    FoldMembersIn(Aggregates.StreamEntries(stream), GroupIds(gs));
    SortDescElements(Aggregates.MembersOf(stream), Aggregates.TotalSpent);
  }

  /** A member row's currency amounts have one entry per currency and add up
      to the member's total. */
  lemma MemberByCurrencySpec(c: Collection, groups: seq<Group>, t: MemberTotal)
    requires t in Aggregates.StatsOf(c, groups).memberBreakdown
    ensures var r := MemberByCurrency(t.groupBreakdown, Aggregates.IncludedGroups(c, groups));
      Distinct(KeysOf(r)) && SumOf(r, Value) == t.totalSpent
  {
    var gs := Aggregates.IncludedGroups(c, groups);
    var bs := t.groupBreakdown;
    MemberRowsFromCollection(c, groups);
    Aggregates.StatsMembersSpec(c, groups);
    AccumulateKeys(MemberCurrencyPairs(bs, gs));
    AccumulateSum(MemberCurrencyPairs(bs, gs));
    MemberCurrencyPairsSum(bs, gs);
    forall i | 0 <= i < |bs| ensures KnownShare(gs)(bs[i]) == Aggregates.ShareAmount(bs[i]) {
      assert bs[i] in bs;
      assert bs[i].groupId in GroupIds(gs);
    }
    SumOfPointwise(bs, bs, KnownShare(gs), Aggregates.ShareAmount);
  }

  /** The member total as displayed: `getDisplayTotal` of the member tab. */
  function MemberDisplayTotal(t: MemberTotal, gs: seq<Group>, d: CollectionStatsView.DisplayCurrency,
                              render: (real, bool) -> string): string
  {
    CollectionStatsView.DisplayAmounts(MemberByCurrency(t.groupBreakdown, gs), d, render)
  }

  /** In a collection whose groups share one currency, the member tab
      starts in that currency and shows each member's total. */
  lemma MemberInitialDisplay(c: Collection, groups: seq<Group>, t: MemberTotal, render: (real, bool) -> string)
    requires t in Aggregates.StatsOf(c, groups).memberBreakdown
    requires InitialMemberDisplay(c, groups).In?
    ensures var d := InitialMemberDisplay(c, groups);
      MemberDisplayTotal(t, Aggregates.IncludedGroups(c, groups), d, render) ==
      FormatCurrency(t.totalSpent, d.currency, render)
  {
    var gs := Aggregates.IncludedGroups(c, groups);
    var d := InitialMemberDisplay(c, groups);
    var ps := MemberCurrencyPairs(t.groupBreakdown, gs);
    var r := Accumulate(ps);
    MemberByCurrencySpec(c, groups, t);
    MemberCurrencyPairsKeys(t.groupBreakdown, gs);
    AccumulateKeys(ps);
    forall i | 0 <= i < |r| ensures r[i].0 == d.currency {
      assert KeysOf(r)[i] == r[i].0;
      assert r[i].0 in KeysOf(ps);
    }
    CollectionStatsView.DisplayInOwnCurrency(r, d.currency, render);
  }
}
