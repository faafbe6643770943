/** The collection functions (src/utils/collectionAggregation.ts): the
    statistics across the groups of a collection, the combined expense feed,
    the member, category and group breakdowns on their own, and the
    validation and clean-up of a collection's group references. Each
    function walks the included groups and their expenses in nested loops
    that update accumulators, as the source does, and is proved equal to
    the folds of `Aggregates`, whose properties are proved there. */
module CollectionAggregation {
  import opened Types
  import opened Seqs
  import opened Buckets
  import opened Aggregates
  import LockerManager

  /** The locker's part of one expense: all of a locker-paid expense, and the
      sum of the locker contributions of a multiple-payer expense. */
  method LockerSpendOf(e: Expense) returns (x: real)
    ensures x == LockerSpend(e)
  {
    x := 0.0;
    if e.paidBy == ByLocker {
      x := e.amount;
    } else if e.paidBy == ByMultiple && e.paidByMultiple.Some? {
      var cs := e.paidByMultiple.value;
      var k := 0;
      while k < |cs|
        invariant 0 <= k <= |cs|
        invariant x == SumOf(cs[..k], LockerPart)
      {
        SumOfPrefix(cs, k, LockerPart);
        if cs[k].payer == LockerPayer {
          x := x + cs[k].amount;
        }
        k := k + 1;
      }
      assert cs[..|cs|] == cs;
    }
  }

  /** The `expense.splits.forEach` over the member map: every split whose
      member belongs to the group is credited to that member's name. */
  method AddSplits(members: seq<MemberTotal>, g: Group, splits: seq<ExpenseSplit>) returns (r: seq<MemberTotal>)
    ensures r == FoldMembers(members, SplitEntries(g, splits))
  {
    r := members;
    var k := 0;
    while k < |splits|
      invariant 0 <= k <= |splits|
      invariant r == FoldMembers(members, SplitEntries(g, splits[..k]))
    {
      SplitEntriesStep(g, splits, k);
      var split := splits[k];
      var member := FindMember(g.members, split.memberId);
      if member.Some? {
        var entry := MemberEntry(member.value.name, g.id, g.name, split.amount);
        assert SplitEntries(g, splits[..k + 1]) == SplitEntries(g, splits[..k]) + [entry];
        FoldMembersStep(members, SplitEntries(g, splits[..k]), entry);
        r := BumpMember(r, entry);
      } else {
        assert SplitEntries(g, splits[..k]) + [] == SplitEntries(g, splits[..k]);
      }
      k := k + 1;
    }
    assert splits[..|splits|] == splits;
  }

  /** The percentage pass, rewriting each contribution's percentage. */
  method AssignPercentages(gcs: seq<GroupContribution>, total: real) returns (r: seq<GroupContribution>)
    ensures r == WithPercentages(gcs, total)
  {
    r := gcs;
    var k := 0;
    while k < |r|
      invariant 0 <= k <= |r| == |gcs|
      invariant forall i :: 0 <= i < k ==> r[i] == gcs[i].(percentage := Percentage(gcs[i].totalExpenses, total))
      invariant forall i :: k <= i < |r| ==> r[i] == gcs[i]
    {
      var pct := if total > 0.0 then r[k].totalExpenses / total * 100.0 else 0.0;
      r := r[k := r[k].(percentage := pct)];
      k := k + 1;
    }
  }

  /** The facts one visited expense adds to the accumulators of
      `calculateCollectionStats` over the expense stream. */
  lemma VisitExpenseStep(doneE: seq<Expense>, e: Expense)
    ensures SumOf(doneE + [e], ExpenseAmount) == SumOf(doneE, ExpenseAmount) + e.amount
    ensures SumOf(doneE + [e], LockerSpend) == SumOf(doneE, LockerSpend) + LockerSpend(e)
    ensures CategoriesOf(doneE + [e]) == BumpCategory(CategoriesOf(doneE), e)
  {
    SumOfSnoc(doneE, e, ExpenseAmount);
    SumOfSnoc(doneE, e, LockerSpend);
    CategoriesStep(doneE, e);
  }

  /** The member map after one more tagged expense. */
  lemma VisitMemberStep(doneP: seq<Placed>, g: Group, e: Expense)
    ensures FoldMembers([], StreamEntries(doneP + [(g, e)])) ==
      FoldMembers(FoldMembers([], StreamEntries(doneP)), SplitEntries(g, e.splits))
  {
    StreamEntriesStep(doneP, (g, e));
    FoldMembersAppend([], StreamEntries(doneP), SplitEntries(g, e.splits));
  }

  /** `VisitExpenseStep` for the `j`-th expense of `g` after the first `j`. */
  lemma VisitGroupStep(doneE: seq<Expense>, g: Group, j: nat)
    requires j < |g.expenses|
    ensures var e := g.expenses[j];
      var es := doneE + g.expenses[..j];
      var es' := doneE + g.expenses[..j + 1];
      SumOf(es', ExpenseAmount) == SumOf(es, ExpenseAmount) + e.amount &&
      SumOf(es', LockerSpend) == SumOf(es, LockerSpend) + LockerSpend(e) &&
      |es'| == |es| + 1 &&
      CategoriesOf(es') == BumpCategory(CategoriesOf(es), e)
  {
    var e := g.expenses[j];
    VisitExpenseStep(doneE + g.expenses[..j], e);
    assert doneE + g.expenses[..j + 1] == doneE + g.expenses[..j] + [e];
  }

  /** `VisitMemberStep` for the `j`-th expense of `g` after the first `j`. */
  lemma VisitGroupMemberStep(doneP: seq<Placed>, g: Group, j: nat)
    requires j < |g.expenses|
    ensures FoldMembers([], StreamEntries(doneP + Tag(g, g.expenses[..j + 1]))) ==
      FoldMembers(FoldMembers([], StreamEntries(doneP + Tag(g, g.expenses[..j]))), SplitEntries(g, g.expenses[j].splits))
  {
    var e := g.expenses[j];
    VisitMemberStep(doneP + Tag(g, g.expenses[..j]), g, e);
    TagStep(g, g.expenses, j);
    assert doneP + Tag(g, g.expenses[..j + 1]) == doneP + Tag(g, g.expenses[..j]) + [(g, e)];
  }

  /** The inner `group.expenses.forEach` of `calculateCollectionStats`: the
      accumulators over the stream visited so far (`doneE`, `doneP`) are
      carried on over the group's expenses; `groupTotal` is the group's total. */
  method VisitGroup(g: Group, total0: real, locker0: real, count0: nat,
                    categories0: seq<CategoryTotal>, members0: seq<MemberTotal>,
                    ghost doneE: seq<Expense>, ghost doneP: seq<Placed>)
    returns (total: real, locker: real, count: nat, categories: seq<CategoryTotal>,
             members: seq<MemberTotal>, groupTotal: real)
    requires total0 == SumOf(doneE, ExpenseAmount) && locker0 == SumOf(doneE, LockerSpend)
    requires count0 == |doneE| && categories0 == CategoriesOf(doneE)
    requires members0 == FoldMembers([], StreamEntries(doneP))
    ensures total == SumOf(doneE + g.expenses, ExpenseAmount)
    ensures locker == SumOf(doneE + g.expenses, LockerSpend)
    ensures count == |doneE + g.expenses|
    ensures categories == CategoriesOf(doneE + g.expenses)
    ensures members == FoldMembers([], StreamEntries(doneP + Tag(g, g.expenses)))
    ensures groupTotal == GroupTotal(g)
  {
    total, locker, count, categories, members, groupTotal := total0, locker0, count0, categories0, members0, 0.0;
    assert doneE + g.expenses[..0] == doneE;
    assert doneP + Tag(g, g.expenses[..0]) == doneP;
    var j := 0;
    while j < |g.expenses|
      invariant 0 <= j <= |g.expenses|
      invariant groupTotal == SumOf(g.expenses[..j], ExpenseAmount)
      invariant total == SumOf(doneE + g.expenses[..j], ExpenseAmount)
      invariant locker == SumOf(doneE + g.expenses[..j], LockerSpend)
      invariant count == |doneE + g.expenses[..j]|
      invariant categories == CategoriesOf(doneE + g.expenses[..j])
      invariant members == FoldMembers([], StreamEntries(doneP + Tag(g, g.expenses[..j])))
    {
      var e := g.expenses[j];
      SumOfPrefix(g.expenses, j, ExpenseAmount);
      VisitGroupStep(doneE, g, j);
      VisitGroupMemberStep(doneP, g, j);

      total := total + e.amount;
      count := count + 1;
      groupTotal := groupTotal + e.amount;
      var lockerPart := LockerSpendOf(e);
      locker := locker + lockerPart;
      categories := BumpCategory(categories, e);
      members := AddSplits(members, g, e.splits);
      j := j + 1;
    }
    assert g.expenses[..|g.expenses|] == g.expenses;
  }

  /** `calculateCollectionStats`: one pass over the included groups and their
      expenses updating the totals, the locker spending, the count, the
      category map, the member map and the group contributions; then the
      percentages and the three descending sorts. */
  method CalculateCollectionStats(c: Collection, groups: seq<Group>) returns (stats: CollectionStats)
    ensures stats == StatsOf(c, groups)
  {
    var gs := IncludedGroups(c, groups);
    var total := 0.0;
    var locker := 0.0;
    var count := 0;
    var categories: seq<CategoryTotal> := [];
    var members: seq<MemberTotal> := [];
    var contributions: seq<GroupContribution> := [];
    ghost var doneE: seq<Expense> := [];
    ghost var doneP: seq<Placed> := [];
    var i := 0;
    while i < |gs|
      invariant 0 <= i <= |gs|
      invariant doneE == AllExpenses(gs[..i]) && doneP == Flatten(gs[..i])
      invariant total == SumOf(doneE, ExpenseAmount)
      invariant locker == SumOf(doneE, LockerSpend)
      invariant count == |doneE|
      invariant categories == CategoriesOf(doneE)
      invariant members == FoldMembers([], StreamEntries(doneP))
      invariant contributions == ContributionsOf(gs[..i])
    {
      var g := gs[i];
      var groupTotal;
      total, locker, count, categories, members, groupTotal :=
        VisitGroup(g, total, locker, count, categories, members, doneE, doneP);
      FlattenStep(gs, i);
      doneE := doneE + g.expenses;
      doneP := doneP + Tag(g, g.expenses);
      ContributionsStep(gs, i);
      contributions := contributions + [GroupContribution(g.id, g.name, g.icon, g.currency, groupTotal, |g.expenses|, 0.0)];
      i := i + 1;
    }
    assert gs[..|gs|] == gs;
    contributions := AssignPercentages(contributions, total);
    stats := CollectionStats(
      total,
      locker,
      total - locker,
      SortDesc(contributions, GcTotal),
      SortDesc(categories, CatAmount),
      SortDesc(members, TotalSpent),
      count);
  }

  /** The inner pass of `getCombinedExpenses` over one group's expenses. */
  method AppendFeed(g: Group, combined: seq<CombinedExpense>, ghost doneP: seq<Placed>)
    returns (out: seq<CombinedExpense>)
    requires combined == CombinedOf(doneP)
    ensures out == CombinedOf(doneP + Tag(g, g.expenses))
  {
    out := combined;
    var j := 0;
    assert doneP + Tag(g, g.expenses[..0]) == doneP;
    while j < |g.expenses|
      invariant 0 <= j <= |g.expenses|
      invariant out == CombinedOf(doneP + Tag(g, g.expenses[..j]))
    {
      var e := g.expenses[j];
      TagStep(g, g.expenses, j);
      assert doneP + Tag(g, g.expenses[..j + 1]) == doneP + Tag(g, g.expenses[..j]) + [(g, e)];
      CombinedStep(doneP + Tag(g, g.expenses[..j]), (g, e));
      out := out + [CombinedExpense(e, g.id, g.name, g.icon, g.currency)];
      j := j + 1;
    }
    assert g.expenses[..|g.expenses|] == g.expenses;
  }

  /** The inner pass of `aggregateMemberSpending` over one group's expenses. */
  method AddGroupMembers(g: Group, members: seq<MemberTotal>, ghost doneP: seq<Placed>)
    returns (out: seq<MemberTotal>)
    requires members == FoldMembers([], StreamEntries(doneP))
    ensures out == FoldMembers([], StreamEntries(doneP + Tag(g, g.expenses)))
  {
    out := members;
    var j := 0;
    assert doneP + Tag(g, g.expenses[..0]) == doneP;
    while j < |g.expenses|
      invariant 0 <= j <= |g.expenses|
      invariant out == FoldMembers([], StreamEntries(doneP + Tag(g, g.expenses[..j])))
    {
      VisitGroupMemberStep(doneP, g, j);
      out := AddSplits(out, g, g.expenses[j].splits);
      j := j + 1;
    }
    assert g.expenses[..|g.expenses|] == g.expenses;
  }

  /** The inner pass of `getCategoryBreakdown` over one group's expenses. */
  method BumpGroupCategories(g: Group, categories: seq<CategoryTotal>, ghost doneE: seq<Expense>)
    returns (out: seq<CategoryTotal>)
    requires categories == CategoriesOf(doneE)
    ensures out == CategoriesOf(doneE + g.expenses)
  {
    out := categories;
    var j := 0;
    assert doneE + g.expenses[..0] == doneE;
    while j < |g.expenses|
      invariant 0 <= j <= |g.expenses|
      invariant out == CategoriesOf(doneE + g.expenses[..j])
    {
      VisitGroupStep(doneE, g, j);
      out := BumpCategory(out, g.expenses[j]);
      j := j + 1;
    }
    assert g.expenses[..|g.expenses|] == g.expenses;
  }

  /** The first pass of `getGroupContributions`: the running total and one
      row per group with its total and size. */
  method GroupTotals(gs: seq<Group>) returns (total: real, contributions: seq<GroupContribution>)
    ensures total == SumOf(gs, GroupTotal)
    ensures contributions == ContributionsOf(gs)
  {
    total := 0.0;
    contributions := [];
    var i := 0;
    while i < |gs|
      invariant 0 <= i <= |gs|
      invariant total == SumOf(gs[..i], GroupTotal)
      invariant contributions == ContributionsOf(gs[..i])
    {
      var g := gs[i];
      var groupTotal := GroupTotalOf(g);
      SumOfPrefix(gs, i, GroupTotal);
      ContributionsStep(gs, i);
      total := total + groupTotal;
      contributions := contributions + [GroupContribution(g.id, g.name, g.icon, g.currency, groupTotal, |g.expenses|, 0.0)];
      i := i + 1;
    }
    assert gs[..|gs|] == gs;
  }

  /** `getCombinedExpenses`: every expense of the included groups tagged with
      its group, in visit order, then sorted newest first. */
  method GetCombinedExpenses(c: Collection, groups: seq<Group>) returns (r: seq<CombinedExpense>)
    ensures r == CombinedFeed(c, groups)
  {
    var gs := IncludedGroups(c, groups);
    var combined: seq<CombinedExpense> := [];
    var i := 0;
    while i < |gs|
      invariant 0 <= i <= |gs|
      invariant combined == CombinedOf(Flatten(gs[..i]))
    {
      combined := AppendFeed(gs[i], combined, Flatten(gs[..i]));
      FlattenStep(gs, i);
      i := i + 1;
    }
    assert gs[..|gs|] == gs;
    r := SortDesc(combined, CombinedDate);
  }

  /** `aggregateMemberSpending`: the member pass of the statistics on its
      own, with the same result as the statistics' member rows. */
  method AggregateMemberSpending(c: Collection, groups: seq<Group>) returns (r: seq<MemberTotal>)
    ensures r == StatsOf(c, groups).memberBreakdown
  {
    var gs := IncludedGroups(c, groups);
    var members: seq<MemberTotal> := [];
    var i := 0;
    while i < |gs|
      invariant 0 <= i <= |gs|
      invariant members == FoldMembers([], StreamEntries(Flatten(gs[..i])))
    {
      members := AddGroupMembers(gs[i], members, Flatten(gs[..i]));
      FlattenStep(gs, i);
      i := i + 1;
    }
    assert gs[..|gs|] == gs;
    r := SortDesc(members, TotalSpent);
  }

  /** `getCategoryBreakdown`: the category pass of the statistics on its
      own, with the same result as the statistics' category rows. */
  method GetCategoryBreakdown(c: Collection, groups: seq<Group>) returns (r: seq<CategoryTotal>)
    ensures r == StatsOf(c, groups).categoryBreakdown
  {
    var gs := IncludedGroups(c, groups);
    var categories: seq<CategoryTotal> := [];
    var i := 0;
    while i < |gs|
      invariant 0 <= i <= |gs|
      invariant categories == CategoriesOf(AllExpenses(gs[..i]))
    {
      categories := BumpGroupCategories(gs[i], categories, AllExpenses(gs[..i]));
      FlattenStep(gs, i);
      i := i + 1;
    }
    assert gs[..|gs|] == gs;
    r := SortDesc(categories, CatAmount);
  }

  /** `group.expenses.reduce((sum, e) => sum + e.amount, 0)`. */
  method GroupTotalOf(g: Group) returns (t: real)
    ensures t == GroupTotal(g)
  {
    t := 0.0;
    var j := 0;
    while j < |g.expenses|
      invariant 0 <= j <= |g.expenses|
      invariant t == SumOf(g.expenses[..j], ExpenseAmount)
    {
      SumOfPrefix(g.expenses, j, ExpenseAmount);
      t := t + g.expenses[j].amount;
      j := j + 1;
    }
    assert g.expenses[..|g.expenses|] == g.expenses;
  }

  /** `getGroupContributions`: a first pass for the totals, a second for the
      percentages, then largest first; the same as the statistics' group rows. */
  method GetGroupContributions(c: Collection, groups: seq<Group>) returns (r: seq<GroupContribution>)
    ensures r == StatsOf(c, groups).groupBreakdown
  {
    var gs := IncludedGroups(c, groups);
    var total, contributions := GroupTotals(gs);
    StatsGroupBreakdown(c, groups);
    contributions := AssignPercentages(contributions, total);
    r := SortDesc(contributions, GcTotal);
  }

  // ---------------------------------------------------------------- group references

  /** Whether some group has the id. */
  function HasGroup(groups: seq<Group>): string -> bool
  {
    (id: string) => id in GroupIds(groups)
  }

  function LacksGroup(groups: seq<Group>): string -> bool
  {
    (id: string) => id !in GroupIds(groups)
  }

  datatype Validation = Validation(valid: bool, missingGroupIds: seq<string>)

  /** `validateCollectionGroups`: the referenced ids that name no group, in
      order, and validity exactly when there are none. */
  function ValidateCollectionGroups(c: Collection, groups: seq<Group>): (r: Validation)
    ensures forall id :: id in r.missingGroupIds <==> id in c.groupIds && forall g :: g in groups ==> g.id != id
    ensures r.valid <==> forall id :: id in c.groupIds ==> exists g :: g in groups && g.id == id
  {
    var missing := Filter(c.groupIds, LacksGroup(groups));
    assert forall id :: id in GroupIds(groups) <==> exists g :: g in groups && g.id == id by {
      forall id ensures id in GroupIds(groups) <==> exists g :: g in groups && g.id == id {
        if id in GroupIds(groups) {
          var k :| 0 <= k < |groups| && GroupIds(groups)[k] == id;
          assert groups[k] in groups;
        }
      }
    }
    assert |missing| > 0 ==> missing[0] in missing;
    Validation(|missing| == 0, missing)
  }

  /** `cleanupCollection`: the referenced ids that name a group, in order;
      the time of the clean-up (`new Date()`) is the parameter `now`. */
  function CleanupCollection(c: Collection, groups: seq<Group>, now: int): (r: Collection)
    ensures r.id == c.id && r.name == c.name && r.icon == c.icon && r.createdAt == c.createdAt
    ensures r.updatedAt == now
    ensures forall id :: id in r.groupIds <==> id in c.groupIds && exists g :: g in groups && g.id == id
    ensures ValidateCollectionGroups(r, groups).valid
  {
    var kept := Filter(c.groupIds, HasGroup(groups));
    assert forall id :: id in GroupIds(groups) <==> exists g :: g in groups && g.id == id by {
      forall id ensures id in GroupIds(groups) <==> exists g :: g in groups && g.id == id {
        if id in GroupIds(groups) {
          var k :| 0 <= k < |groups| && GroupIds(groups)[k] == id;
          assert groups[k] in groups;
        }
      }
    }
    c.(groupIds := kept, updatedAt := now)
  }

  /** The kept ids keep their order: an id appended to the collection's list
      is appended to the kept ids exactly when it names a group. */
  lemma CleanupKeepsOrder(c: Collection, x: string, groups: seq<Group>, now: int)
    ensures CleanupCollection(c.(groupIds := c.groupIds + [x]), groups, now).groupIds ==
      CleanupCollection(c, groups, now).groupIds + (if x in GroupIds(groups) then [x] else [])
  {
    FilterSnoc(c.groupIds, x, HasGroup(groups));
  }

  /** Cleaning up twice is cleaning up once. */
  lemma CleanupIdempotent(c: Collection, groups: seq<Group>, t1: int, t2: int)
    ensures CleanupCollection(CleanupCollection(c, groups, t1), groups, t2) == CleanupCollection(c, groups, t2)
  {
    var once := CleanupCollection(c, groups, t1);
    FilterAll(once.groupIds, HasGroup(groups));
  }

  /** A valid collection is left as it is, apart from its update time. */
  lemma CleanupValid(c: Collection, groups: seq<Group>, now: int)
    requires ValidateCollectionGroups(c, groups).valid
    ensures CleanupCollection(c, groups, now) == c.(updatedAt := now)
  {
    assert forall id :: id in c.groupIds ==> id in GroupIds(groups) by {
      forall id | id in c.groupIds ensures id in GroupIds(groups) {
        var g :| g in groups && g.id == id;
        var k :| 0 <= k < |groups| && groups[k] == g;
        assert GroupIds(groups)[k] == id;
      }
    }
    FilterAll(c.groupIds, HasGroup(groups));
  }

  /** Dropping dangling references includes the same groups. */
  lemma CleanupKeepsGroups(c: Collection, groups: seq<Group>, now: int)
    ensures IncludedGroups(CleanupCollection(c, groups, now), groups) == IncludedGroups(c, groups)
  {
    var r := CleanupCollection(c, groups, now);
    forall i | 0 <= i < |groups| ensures InCollection(r)(groups[i]) == InCollection(c)(groups[i]) {
      assert groups[i] in groups;
    }
    FilterEquiv(groups, InCollection(r), InCollection(c));
  }

  /** Dropping dangling references changes no statistic. */
  lemma CleanupKeepsStats(c: Collection, groups: seq<Group>, now: int)
    ensures StatsOf(CleanupCollection(c, groups, now), groups) == StatsOf(c, groups)
  {
    CleanupKeepsGroups(c, groups, now);
  }

  // ---------------------------------------------------------------- the two locker rules

  /** At most one contribution of `cs` comes from the locker. */
  predicate AtMostOneLockerContribution(cs: seq<Contribution>)
  {
    forall i, j :: 0 <= i < j < |cs| && cs[i].payer == LockerPayer ==> cs[j].payer != LockerPayer
  }

  lemma {:induction false} FirstLockerIsAll(cs: seq<Contribution>)
    requires AtMostOneLockerContribution(cs)
    ensures LockerManager.FirstLockerContribution(cs) == LockerContributions(cs)
  {
    if |cs| > 0 {
      assert cs == [cs[0]] + cs[1..];
      SumOfCons(cs[0], cs[1..], LockerPart);
      if cs[0].payer == LockerPayer {
        forall i | 0 <= i < |cs[1..]| ensures LockerPart(cs[1..][i]) == 0.0 {
          assert cs[1..][i] == cs[i + 1];
        }
        SumOfConst(cs[1..], LockerPart, 0.0);
      } else {
        FirstLockerIsAll(cs[1..]);
      }
    }
  }

  /** The collection statistics count every locker contribution of a
      multiple-payer expense, the locker screen only the first; the two
      agree on every expense with at most one locker contribution. */
  lemma LockerRulesAgree(es: seq<Expense>)
    requires forall e :: e in es && e.paidByMultiple.Some? ==> AtMostOneLockerContribution(e.paidByMultiple.value)
    ensures SumOf(es, LockerSpend) == LockerManager.TotalWithdrawn(es)
  {
    LockerSpendIsDraw(es);
  }

  /** The induction behind `LockerRulesAgree`, expense by expense. */
  lemma {:induction false} LockerSpendIsDraw(es: seq<Expense>)
    requires forall e :: e in es && e.paidByMultiple.Some? ==> AtMostOneLockerContribution(e.paidByMultiple.value)
    ensures SumOf(es, LockerSpend) == SumOf(es, LockerManager.LockerDraw)
  {
    if |es| > 0 {
      var n := |es| - 1;
      assert forall e :: e in es[..n] ==> e in es;
      LockerSpendIsDraw(es[..n]);
      if es[n].paidBy == ByMultiple && es[n].paidByMultiple.Some? {
        FirstLockerIsAll(es[n].paidByMultiple.value);
      }
    }
  }

  /** Two locker contributions of 5: the statistics count 10, the locker
      screen 5. */
  lemma LockerRulesDiffer()
    ensures var cs := [Contribution(LockerPayer, 5.0), Contribution(LockerPayer, 5.0)];
      LockerContributions(cs) == 10.0 && LockerManager.FirstLockerContribution(cs) == 5.0
  {
    var cs := [Contribution(LockerPayer, 5.0), Contribution(LockerPayer, 5.0)];
    SumOfCons(cs[0], [cs[1]], LockerPart);
    SumOfCons(cs[1], [], LockerPart);
    assert cs == [cs[0]] + [cs[1]] && [cs[1]] == [cs[1]] + [];
  }
}
