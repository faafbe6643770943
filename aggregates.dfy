/** The folds the collection functions (src/utils/collectionAggregation.ts)
    compute, stated on whole sequences: the included groups, the stream of
    their expenses, the locker rule that counts every locker contribution,
    the category map, the member-by-name map with its per-group breakdown,
    the group contributions with their percentages, and the combined feed.
    The loops of `CollectionAggregation` are proved equal to these. */
module Aggregates {
  import opened Types
  import opened Seqs
  import opened Buckets

  // ---------------------------------------------------------------- included groups

  function InCollection(c: Collection): Group -> bool
  {
    (g: Group) => g.id in c.groupIds
  }

  /** `groups.filter(g => collection.groupIds.includes(g.id))`. */
  function IncludedGroups(c: Collection, groups: seq<Group>): (gs: seq<Group>)
    ensures |gs| <= |groups|
    ensures forall g :: g in gs <==> g in groups && g.id in c.groupIds
  {
    Filter(groups, InCollection(c))
  }

  /** The included groups keep the order of `groups`: a group appended to
      `groups` is appended to the result exactly when it is listed. */
  lemma IncludedGroupsKeepsOrder(c: Collection, groups: seq<Group>, g: Group)
    ensures IncludedGroups(c, groups + [g]) == IncludedGroups(c, groups) + (if g.id in c.groupIds then [g] else [])
  {
    FilterSnoc(groups, g, InCollection(c));
  }

  /** Only the set of ids matters: repeating an id, or listing ids in another
      order, selects the same groups in the same (the `groups`) order. */
  lemma IncludedGroupsBySet(c1: Collection, c2: Collection, groups: seq<Group>)
    requires forall id :: id in c1.groupIds <==> id in c2.groupIds
    ensures IncludedGroups(c1, groups) == IncludedGroups(c2, groups)
  {
    FilterEquiv(groups, InCollection(c1), InCollection(c2));
  }

  // ---------------------------------------------------------------- the expense stream

  /** An expense together with the group it belongs to. */
  type Placed = (Group, Expense)

  function Tag(g: Group, es: seq<Expense>): (ps: seq<Placed>)
    ensures |ps| == |es| && forall i :: 0 <= i < |es| ==> ps[i] == (g, es[i])
  {
    seq(|es|, i requires 0 <= i < |es| => (g, es[i]))
  }

  /** The expenses of the groups, group by group, each with its group: the
      order in which the nested `forEach` visits them. */
  function Flatten(gs: seq<Group>): seq<Placed>
  {
    if |gs| == 0 then [] else Flatten(gs[..|gs| - 1]) + Tag(gs[|gs| - 1], gs[|gs| - 1].expenses)
  }

  /** The same visit, without the groups. */
  function AllExpenses(gs: seq<Group>): seq<Expense>
  {
    if |gs| == 0 then [] else AllExpenses(gs[..|gs| - 1]) + gs[|gs| - 1].expenses
  }

  lemma FlattenStep(gs: seq<Group>, i: nat)
    requires i < |gs|
    ensures Flatten(gs[..i + 1]) == Flatten(gs[..i]) + Tag(gs[i], gs[i].expenses)
    ensures AllExpenses(gs[..i + 1]) == AllExpenses(gs[..i]) + gs[i].expenses
  {
    assert gs[..i + 1][..i] == gs[..i];
  }

  lemma TagStep(g: Group, es: seq<Expense>, j: nat)
    requires j < |es|
    ensures Tag(g, es[..j + 1]) == Tag(g, es[..j]) + [(g, es[j])]
  {
  }

  /** Each element of the stream is an expense of an included group. */
  lemma {:induction false} FlattenMembership(gs: seq<Group>)
    ensures forall p :: p in Flatten(gs) ==> p.0 in gs && p.1 in p.0.expenses
  {
    if |gs| > 0 {
      FlattenMembership(gs[..|gs| - 1]);
    }
  }

  /** Every expense of every group occurs in the stream, with its group. */
  lemma {:induction false} FlattenComplete(gs: seq<Group>)
    ensures forall i, j :: 0 <= i < |gs| && 0 <= j < |gs[i].expenses| ==> (gs[i], gs[i].expenses[j]) in Flatten(gs)
  {
    if |gs| > 0 {
      var n := |gs| - 1;
      FlattenComplete(gs[..n]);
      forall i, j | 0 <= i < |gs| && 0 <= j < |gs[i].expenses|
        ensures (gs[i], gs[i].expenses[j]) in Flatten(gs)
      {
        if i < n {
          assert gs[..n][i] == gs[i];
        } else {
          assert Tag(gs[n], gs[n].expenses)[j] == (gs[i], gs[i].expenses[j]);
        }
      }
    }
  }

  function GroupTotal(g: Group): real
  {
    SumOf(g.expenses, ExpenseAmount)
  }

  function ExpenseCount(g: Group): real
  {
    |g.expenses| as real
  }

  /** The stream's total is the sum of the group totals, and its length the
      sum of the group sizes. */
  lemma {:induction false} AllExpensesSums(gs: seq<Group>)
    ensures SumOf(AllExpenses(gs), ExpenseAmount) == SumOf(gs, GroupTotal)
    ensures |AllExpenses(gs)| as real == SumOf(gs, ExpenseCount)
  {
    if |gs| > 0 {
      var n := |gs| - 1;
      AllExpensesSums(gs[..n]);
      SumOfAppend(AllExpenses(gs[..n]), gs[n].expenses, ExpenseAmount);
    }
  }

  // ---------------------------------------------------------------- locker spending

  function LockerPart(c: Contribution): real
  {
    if c.payer == LockerPayer then c.amount else 0.0
  }

  /** The locker's part of a multiple-payer expense: every locker contribution. */
  function LockerContributions(cs: seq<Contribution>): real
  {
    SumOf(cs, LockerPart)
  }

  /** What the collection statistics count as locker spending for one expense. */
  function LockerSpend(e: Expense): real
  {
    match e.paidBy
    case ByLocker => e.amount
    case ByMultiple => if e.paidByMultiple.Some? then LockerContributions(e.paidByMultiple.value) else 0.0
    case ByMember(_) => 0.0
  }

  // ---------------------------------------------------------------- categories

  function CatAmount(t: CategoryTotal): real { t.amount }
  function CatCount(t: CategoryTotal): real { t.count as real }

  /** One expense into the category map: bump its entry in place, or append a
      new entry with count 1. */
  function BumpCategory(acc: seq<CategoryTotal>, e: Expense): seq<CategoryTotal>
  {
    if |acc| == 0 then [CategoryTotal(e.category, e.amount, 1)]
    else if acc[0].category == e.category then
      [acc[0].(amount := acc[0].amount + e.amount, count := acc[0].count + 1)] + acc[1..]
    else [acc[0]] + BumpCategory(acc[1..], e)
  }

  /** The category map after visiting `es` in order. */
  function CategoriesOf(es: seq<Expense>): seq<CategoryTotal>
  {
    if |es| == 0 then [] else BumpCategory(CategoriesOf(es[..|es| - 1]), es[|es| - 1])
  }

  lemma CategoriesStep(es: seq<Expense>, e: Expense)
    ensures CategoriesOf(es + [e]) == BumpCategory(CategoriesOf(es), e)
  {
    assert (es + [e])[..|es|] == es;
  }

  function CategoryAmounts(acc: seq<CategoryTotal>): (ps: seq<(string, real)>)
    ensures |ps| == |acc| && forall i :: 0 <= i < |acc| ==> ps[i] == (acc[i].category, acc[i].amount)
  {
    seq(|acc|, i requires 0 <= i < |acc| => (acc[i].category, acc[i].amount))
  }

  function CategoryCounts(acc: seq<CategoryTotal>): (ps: seq<(string, real)>)
    ensures |ps| == |acc| && forall i :: 0 <= i < |acc| ==> ps[i] == (acc[i].category, acc[i].count as real)
  {
    seq(|acc|, i requires 0 <= i < |acc| => (acc[i].category, acc[i].count as real))
  }

  /** Each expense counted once under its category. */
  function OnePairs(es: seq<Expense>): (ps: seq<(string, real)>)
    ensures |ps| == |es| && forall i :: 0 <= i < |es| ==> ps[i] == (es[i].category, 1.0)
  {
    seq(|es|, i requires 0 <= i < |es| => (es[i].category, 1.0))
  }

  lemma {:induction false} BumpCategoryAmounts(acc: seq<CategoryTotal>, e: Expense)
    ensures CategoryAmounts(BumpCategory(acc, e)) == Add(CategoryAmounts(acc), e.category, e.amount)
  {
    if |acc| > 0 {
      var ps := CategoryAmounts(acc);
      assert ps[1..] == CategoryAmounts(acc[1..]);
      if acc[0].category != e.category {
        BumpCategoryAmounts(acc[1..], e);
        assert CategoryAmounts(BumpCategory(acc, e)) == [ps[0]] + CategoryAmounts(BumpCategory(acc[1..], e));
      } else {
        assert CategoryAmounts(BumpCategory(acc, e)) == [(e.category, ps[0].1 + e.amount)] + ps[1..];
      }
    }
  }

  lemma {:induction false} BumpCategoryCounts(acc: seq<CategoryTotal>, e: Expense)
    ensures CategoryCounts(BumpCategory(acc, e)) == Add(CategoryCounts(acc), e.category, 1.0)
  {
    if |acc| > 0 {
      var ps := CategoryCounts(acc);
      assert ps[1..] == CategoryCounts(acc[1..]);
      if acc[0].category != e.category {
        BumpCategoryCounts(acc[1..], e);
        assert CategoryCounts(BumpCategory(acc, e)) == [ps[0]] + CategoryCounts(BumpCategory(acc[1..], e));
      } else {
        assert CategoryCounts(BumpCategory(acc, e)) == [(e.category, ps[0].1 + 1.0)] + ps[1..];
      }
    }
  }

  /** The category map is two accumulators at once: amounts by category and
      counts by category. */
  lemma {:induction false} CategoriesBuckets(es: seq<Expense>)
    ensures CategoryAmounts(CategoriesOf(es)) == Accumulate(CategoryPairs(es))
    ensures CategoryCounts(CategoriesOf(es)) == Accumulate(OnePairs(es))
  {
    if |es| > 0 {
      var n := |es| - 1;
      CategoriesBuckets(es[..n]);
      BumpCategoryAmounts(CategoriesOf(es[..n]), es[n]);
      BumpCategoryCounts(CategoriesOf(es[..n]), es[n]);
      assert CategoryPairs(es)[..n] == CategoryPairs(es[..n]);
      assert OnePairs(es)[..n] == OnePairs(es[..n]);
    }
  }

  /** The category breakdown: one entry per distinct category, in order of
      first appearance; each amount is the sum of that category's amounts;
      the amounts add up to the total and the counts to the number of
      expenses. */
  lemma CategoryBreakdownSpec(es: seq<Expense>)
    ensures KeysOf(CategoryAmounts(CategoriesOf(es))) == Dedup(KeysOf(CategoryPairs(es)))
    ensures forall i :: 0 <= i < |CategoriesOf(es)| ==>
      CategoriesOf(es)[i].amount == SumFor(CategoryPairs(es), CategoriesOf(es)[i].category)
    ensures SumOf(CategoriesOf(es), CatAmount) == SumOf(es, ExpenseAmount)
    ensures SumOf(CategoriesOf(es), CatCount) == |es| as real
  {
    CategoryRows(es);
    CategoryTotals(es);
  }

  lemma CategoryRows(es: seq<Expense>)
    ensures KeysOf(CategoryAmounts(CategoriesOf(es))) == Dedup(KeysOf(CategoryPairs(es)))
    ensures forall i :: 0 <= i < |CategoriesOf(es)| ==>
      CategoriesOf(es)[i].amount == SumFor(CategoryPairs(es), CategoriesOf(es)[i].category)
  {
    var cats := CategoriesOf(es);
    CategoriesBuckets(es);
    AccumulateSpec(CategoryPairs(es));
    assert forall i :: 0 <= i < |cats| ==> CategoryAmounts(cats)[i] == (cats[i].category, cats[i].amount);
  }

  lemma CategoryTotals(es: seq<Expense>)
    ensures SumOf(CategoriesOf(es), CatAmount) == SumOf(es, ExpenseAmount)
    ensures SumOf(CategoriesOf(es), CatCount) == |es| as real
  {
    var cats := CategoriesOf(es);
    CategoriesBuckets(es);
    AccumulateSum(CategoryPairs(es));
    AccumulateSum(OnePairs(es));
    SumOfPointwise(cats, CategoryAmounts(cats), CatAmount, Value);
    SumOfPointwise(cats, CategoryCounts(cats), CatCount, Value);
    SumOfPointwise(CategoryPairs(es), es, Value, ExpenseAmount);
    SumOfConst(OnePairs(es), Value, 1.0);
  }

  // ---------------------------------------------------------------- members

  /** One split credited to a member, by name, in a group. */
  datatype MemberEntry = MemberEntry(name: string, groupId: string, groupName: string, amount: real)

  /** `members.find(m => m.id === id)`. */
  function FindMember(ms: seq<Member>, id: string): (r: Option<Member>)
    ensures r.Some? ==> r.value in ms && r.value.id == id
    ensures r.Some? ==> exists i :: 0 <= i < |ms| && ms[i] == r.value && forall k :: 0 <= k < i ==> ms[k].id != id
    ensures r.None? <==> forall m :: m in ms ==> m.id != id
  {
    if |ms| == 0 then None
    else if ms[0].id == id then Some(ms[0])
    else
      var r := FindMember(ms[1..], id);
      if r.Some? then
        var j :| 0 <= j < |ms| - 1 && ms[1..][j] == r.value && forall k :: 0 <= k < j ==> ms[1..][k].id != id;
        assert ms[j + 1] == r.value;
        r
      else r
  }

  /** The entries the splits of one expense of `g` produce: one per split
      whose member belongs to the group; the others are dropped. */
  function SplitEntries(g: Group, splits: seq<ExpenseSplit>): seq<MemberEntry>
  {
    if |splits| == 0 then []
    else
      var s := splits[|splits| - 1];
      var m := FindMember(g.members, s.memberId);
      SplitEntries(g, splits[..|splits| - 1]) +
      (if m.Some? then [MemberEntry(m.value.name, g.id, g.name, s.amount)] else [])
  }

  lemma SplitEntriesStep(g: Group, splits: seq<ExpenseSplit>, k: nat)
    requires k < |splits|
    ensures var m := FindMember(g.members, splits[k].memberId);
      SplitEntries(g, splits[..k + 1]) == SplitEntries(g, splits[..k]) +
        (if m.Some? then [MemberEntry(m.value.name, g.id, g.name, splits[k].amount)] else [])
  {
    assert splits[..k + 1][..k] == splits[..k];
  }

  function StreamEntries(stream: seq<Placed>): seq<MemberEntry>
  {
    if |stream| == 0 then []
    else
      var p := stream[|stream| - 1];
      StreamEntries(stream[..|stream| - 1]) + SplitEntries(p.0, p.1.splits)
  }

  lemma StreamEntriesStep(stream: seq<Placed>, p: Placed)
    ensures StreamEntries(stream + [p]) == StreamEntries(stream) + SplitEntries(p.0, p.1.splits)
  {
    assert (stream + [p])[..|stream|] == stream;
  }

  function ShareAmount(s: GroupShare): real { s.amount }

  /** One entry into a member's `groupBreakdown`: bump the entry of its group,
      or append one. */
  function AddShare(bs: seq<GroupShare>, e: MemberEntry): seq<GroupShare>
  {
    if |bs| == 0 then [GroupShare(e.groupId, e.groupName, e.amount)]
    else if bs[0].groupId == e.groupId then [bs[0].(amount := bs[0].amount + e.amount)] + bs[1..]
    else [bs[0]] + AddShare(bs[1..], e)
  }

  /** One entry into the member map, keyed by name. */
  function BumpMember(acc: seq<MemberTotal>, e: MemberEntry): seq<MemberTotal>
  {
    if |acc| == 0 then [MemberTotal(e.name, e.amount, [GroupShare(e.groupId, e.groupName, e.amount)])]
    else if acc[0].memberName == e.name then
      [acc[0].(totalSpent := acc[0].totalSpent + e.amount, groupBreakdown := AddShare(acc[0].groupBreakdown, e))] + acc[1..]
    else [acc[0]] + BumpMember(acc[1..], e)
  }

  /** The member map after the entries, starting from `acc`. */
  function FoldMembers(acc: seq<MemberTotal>, es: seq<MemberEntry>): seq<MemberTotal>
  {
    if |es| == 0 then acc else BumpMember(FoldMembers(acc, es[..|es| - 1]), es[|es| - 1])
  }

  lemma FoldMembersStep(acc: seq<MemberTotal>, es: seq<MemberEntry>, e: MemberEntry)
    ensures FoldMembers(acc, es + [e]) == BumpMember(FoldMembers(acc, es), e)
  {
    assert (es + [e])[..|es|] == es;
  }

  lemma {:induction false} FoldMembersAppend(acc: seq<MemberTotal>, a: seq<MemberEntry>, b: seq<MemberEntry>)
    ensures FoldMembers(acc, a + b) == FoldMembers(FoldMembers(acc, a), b)
  {
    if |b| == 0 {
      assert a + b == a;
    } else {
      var n := |b| - 1;
      FoldMembersAppend(acc, a, b[..n]);
      assert a + b == (a + b[..n]) + [b[n]];
      FoldMembersStep(acc, a + b[..n], b[n]);
      assert b == b[..n] + [b[n]];
      FoldMembersStep(FoldMembers(acc, a), b[..n], b[n]);
    }
  }

  /** The member map of a stream of expenses. */
  function MembersOf(stream: seq<Placed>): seq<MemberTotal>
  {
    FoldMembers([], StreamEntries(stream))
  }

  function TotalSpent(t: MemberTotal): real { t.totalSpent }

  function NameTotals(acc: seq<MemberTotal>): (ps: seq<(string, real)>)
    ensures |ps| == |acc| && forall i :: 0 <= i < |acc| ==> ps[i] == (acc[i].memberName, acc[i].totalSpent)
  {
    seq(|acc|, i requires 0 <= i < |acc| => (acc[i].memberName, acc[i].totalSpent))
  }

  function EntryPairs(es: seq<MemberEntry>): (ps: seq<(string, real)>)
    ensures |ps| == |es| && forall i :: 0 <= i < |es| ==> ps[i] == (es[i].name, es[i].amount)
  {
    seq(|es|, i requires 0 <= i < |es| => (es[i].name, es[i].amount))
  }

  function ShareBucket(bs: seq<GroupShare>): (ps: seq<(string, real)>)
    ensures |ps| == |bs| && forall i :: 0 <= i < |bs| ==> ps[i] == (bs[i].groupId, bs[i].amount)
  {
    seq(|bs|, i requires 0 <= i < |bs| => (bs[i].groupId, bs[i].amount))
  }

  lemma {:induction false} AddShareBucket(bs: seq<GroupShare>, e: MemberEntry)
    ensures ShareBucket(AddShare(bs, e)) == Add(ShareBucket(bs), e.groupId, e.amount)
  {
    if |bs| > 0 {
      assert ShareBucket(bs)[1..] == ShareBucket(bs[1..]);
      if bs[0].groupId != e.groupId {
        AddShareBucket(bs[1..], e);
        assert ShareBucket(AddShare(bs, e)) == [ShareBucket(bs)[0]] + ShareBucket(AddShare(bs[1..], e));
      }
    }
  }

  lemma {:induction false} BumpMemberNames(acc: seq<MemberTotal>, e: MemberEntry)
    ensures NameTotals(BumpMember(acc, e)) == Add(NameTotals(acc), e.name, e.amount)
  {
    if |acc| > 0 {
      assert NameTotals(acc)[1..] == NameTotals(acc[1..]);
      if acc[0].memberName != e.name {
        BumpMemberNames(acc[1..], e);
        assert NameTotals(BumpMember(acc, e)) == [NameTotals(acc)[0]] + NameTotals(BumpMember(acc[1..], e));
      }
    }
  }

  /** By name, the member map is an accumulator of the entries' amounts. */
  lemma {:induction false} FoldMembersNames(es: seq<MemberEntry>)
    ensures NameTotals(FoldMembers([], es)) == Accumulate(EntryPairs(es))
  {
    if |es| > 0 {
      var n := |es| - 1;
      FoldMembersNames(es[..n]);
      BumpMemberNames(FoldMembers([], es[..n]), es[n]);
      assert EntryPairs(es)[..n] == EntryPairs(es[..n]);
    }
  }

  /** A member's row is consistent: its total is the sum of its per-group
      amounts, and each group appears at most once in its breakdown. */
  predicate MemberConsistent(t: MemberTotal)
  {
    t.totalSpent == SumOf(t.groupBreakdown, ShareAmount) && Distinct(KeysOf(ShareBucket(t.groupBreakdown)))
  }

  lemma AddShareTotal(bs: seq<GroupShare>, e: MemberEntry)
    ensures SumOf(AddShare(bs, e), ShareAmount) == SumOf(bs, ShareAmount) + e.amount
  {
    var nb := AddShare(bs, e);
    AddShareBucket(bs, e);
    AddSum(ShareBucket(bs), e.groupId, e.amount);
    SumOfPointwise(bs, ShareBucket(bs), ShareAmount, Value);
    SumOfPointwise(nb, ShareBucket(nb), ShareAmount, Value);
  }

  lemma AddShareDistinct(bs: seq<GroupShare>, e: MemberEntry)
    requires Distinct(KeysOf(ShareBucket(bs)))
    ensures Distinct(KeysOf(ShareBucket(AddShare(bs, e))))
  {
    var keys := KeysOf(ShareBucket(bs));
    AddShareBucket(bs, e);
    AddKeys(ShareBucket(bs), e.groupId, e.amount);
    if e.groupId !in keys {
      var nk := keys + [e.groupId];
      forall i, j | 0 <= i < j < |nk| ensures nk[i] != nk[j] {
        if j == |keys| {
          assert nk[i] == keys[i];
        }
      }
    }
  }

  lemma AddShareConsistent(t: MemberTotal, e: MemberEntry)
    requires MemberConsistent(t)
    ensures MemberConsistent(t.(totalSpent := t.totalSpent + e.amount, groupBreakdown := AddShare(t.groupBreakdown, e)))
  {
    AddShareTotal(t.groupBreakdown, e);
    AddShareDistinct(t.groupBreakdown, e);
  }

  lemma {:induction false} BumpMemberConsistent(acc: seq<MemberTotal>, e: MemberEntry)
    requires forall t :: t in acc ==> MemberConsistent(t)
    ensures forall t :: t in BumpMember(acc, e) ==> MemberConsistent(t)
  {
    if |acc| == 0 {
      var t := MemberTotal(e.name, e.amount, [GroupShare(e.groupId, e.groupName, e.amount)]);
      assert SumOf(t.groupBreakdown, ShareAmount) == e.amount;
      assert MemberConsistent(t);
    } else if acc[0].memberName == e.name {
      AddShareConsistent(acc[0], e);
    } else {
      BumpMemberConsistent(acc[1..], e);
    }
  }

  lemma {:induction false} FoldMembersConsistent(es: seq<MemberEntry>)
    ensures forall t :: t in FoldMembers([], es) ==> MemberConsistent(t)
  {
    if |es| > 0 {
      FoldMembersConsistent(es[..|es| - 1]);
      BumpMemberConsistent(FoldMembers([], es[..|es| - 1]), es[|es| - 1]);
    }
  }

  function EntryAmount(e: MemberEntry): real { e.amount }

  /** The member breakdown of a stream: one row per distinct member name, in
      order of first appearance; each row's total is the sum of that name's
      entries; every row is consistent with its per-group breakdown; and the
      rows add up to the sum of all credited splits. */
  lemma MemberBreakdownSpec(stream: seq<Placed>)
    ensures var ms := MembersOf(stream);
      var es := StreamEntries(stream);
      KeysOf(NameTotals(ms)) == Dedup(KeysOf(EntryPairs(es))) &&
      (forall i :: 0 <= i < |ms| ==> ms[i].totalSpent == SumFor(EntryPairs(es), ms[i].memberName)) &&
      (forall t :: t in ms ==> MemberConsistent(t)) &&
      SumOf(ms, TotalSpent) == SumOf(es, EntryAmount)
  {
    var ms := MembersOf(stream);
    var es := StreamEntries(stream);
    FoldMembersNames(es);
    FoldMembersConsistent(es);
    AccumulateSpec(EntryPairs(es));
    assert forall i :: 0 <= i < |ms| ==> NameTotals(ms)[i] == (ms[i].memberName, ms[i].totalSpent);
    SumOfPointwise(ms, NameTotals(ms), TotalSpent, Value);
    SumOfPointwise(EntryPairs(es), es, Value, EntryAmount);
  }

  /** Splits whose member is not in the group credit nobody. */
  lemma {:induction false} UnknownSplitsDropped(g: Group, splits: seq<ExpenseSplit>)
    requires forall i :: 0 <= i < |splits| ==> FindMember(g.members, splits[i].memberId).None?
    ensures SplitEntries(g, splits) == []
  {
    if |splits| > 0 {
      UnknownSplitsDropped(g, splits[..|splits| - 1]);
    }
  }

  // ---------------------------------------------------------------- group contributions

  function GcTotal(gc: GroupContribution): real { gc.totalExpenses }
  function GcPercentage(gc: GroupContribution): real { gc.percentage }

  /** A group's contribution before percentages are filled in. */
  function ContributionOf(g: Group): GroupContribution
  {
    GroupContribution(g.id, g.name, g.icon, g.currency, GroupTotal(g), |g.expenses|, 0.0)
  }

  function ContributionsOf(gs: seq<Group>): (cs: seq<GroupContribution>)
    ensures |cs| == |gs| && forall i :: 0 <= i < |gs| ==> cs[i] == ContributionOf(gs[i])
  {
    seq(|gs|, i requires 0 <= i < |gs| => ContributionOf(gs[i]))
  }

  lemma ContributionsStep(gs: seq<Group>, i: nat)
    requires i < |gs|
    ensures ContributionsOf(gs[..i + 1]) == ContributionsOf(gs[..i]) + [ContributionOf(gs[i])]
  {
    var a := ContributionsOf(gs[..i + 1]);
    var b := ContributionsOf(gs[..i]) + [ContributionOf(gs[i])];
    assert |a| == |b|;
    forall k | 0 <= k < |a| ensures a[k] == b[k] {
      assert gs[..i + 1][k] == gs[k];
    }
  }

  /** `total > 0 ? part / total * 100 : 0`. */
  function Percentage(part: real, total: real): real
  {
    if total > 0.0 then part / total * 100.0 else 0.0
  }

  function WithPercentages(gcs: seq<GroupContribution>, total: real): (r: seq<GroupContribution>)
    ensures |r| == |gcs|
    ensures forall i :: 0 <= i < |gcs| ==>
      r[i] == gcs[i].(percentage := Percentage(gcs[i].totalExpenses, total))
  {
    seq(|gcs|, i requires 0 <= i < |gcs| => gcs[i].(percentage := Percentage(gcs[i].totalExpenses, total)))
  }

  /** A contribution's total scaled by `c`. */
  function ScaledTotal(c: real): GroupContribution -> real
  {
    (gc: GroupContribution) => gc.totalExpenses * c
  }

  lemma PercentageAt(gcs: seq<GroupContribution>, total: real, i: nat)
    requires total > 0.0 && i < |gcs|
    ensures GcPercentage(WithPercentages(gcs, total)[i]) == ScaledTotal(100.0 / total)(gcs[i])
  {
    var t := gcs[i].totalExpenses;
    assert Percentage(t, total) == t / total * 100.0;
    assert t / total * 100.0 == t * (100.0 / total);
  }

  lemma PercentTotal(total: real)
    requires total > 0.0
    ensures total * (100.0 / total) == 100.0
  {
  }

  /** With a positive total equal to the sum of the parts, the percentages
      add up to 100; with no positive total they are all 0. */
  lemma PercentagesSum(gcs: seq<GroupContribution>, total: real)
    requires total == SumOf(gcs, GcTotal)
    ensures total > 0.0 ==> SumOf(WithPercentages(gcs, total), GcPercentage) == 100.0
    ensures total <= 0.0 ==> forall gc :: gc in WithPercentages(gcs, total) ==> gc.percentage == 0.0
  {
    var r := WithPercentages(gcs, total);
    if total > 0.0 {
      var c := 100.0 / total;
      forall i | 0 <= i < |gcs| ensures GcPercentage(r[i]) == ScaledTotal(c)(gcs[i]) {
        PercentageAt(gcs, total, i);
      }
      SumOfPointwise(r, gcs, GcPercentage, ScaledTotal(c));
      SumOfScale(gcs, GcTotal, ScaledTotal(c), c);
      PercentTotal(total);
    }
  }

  /** The contributions' totals add up to the sum of the group totals. */
  lemma ContributionsTotal(gs: seq<Group>)
    ensures SumOf(ContributionsOf(gs), GcTotal) == SumOf(gs, GroupTotal)
  {
    SumOfPointwise(ContributionsOf(gs), gs, GcTotal, GroupTotal);
  }

  // ---------------------------------------------------------------- the combined feed

  function ToCombined(p: Placed): CombinedExpense
  {
    CombinedExpense(p.1, p.0.id, p.0.name, p.0.icon, p.0.currency)
  }

  function CombinedOf(stream: seq<Placed>): (r: seq<CombinedExpense>)
    ensures |r| == |stream| && forall i :: 0 <= i < |stream| ==> r[i] == ToCombined(stream[i])
  {
    seq(|stream|, i requires 0 <= i < |stream| => ToCombined(stream[i]))
  }

  /** The sort key of the feed: the expense's timestamp. */
  function CombinedDate(x: CombinedExpense): real
  {
    x.expense.date as real
  }

  /** The feed of `getCombinedExpenses`: every expense of the included groups,
      tagged with its group, newest first. */
  function CombinedFeed(c: Collection, groups: seq<Group>): seq<CombinedExpense>
  {
    SortDesc(CombinedOf(Flatten(IncludedGroups(c, groups))), CombinedDate)
  }

  lemma CombinedStep(stream: seq<Placed>, p: Placed)
    ensures CombinedOf(stream + [p]) == CombinedOf(stream) + [ToCombined(p)]
  {
  }

  /** The newest-first feed is ordered by date, holds exactly the tagged
      expenses of the included groups, keeps same-date expenses in visit
      order, and every entry names the group its expense came from. */
  lemma CombinedFeedSpec(c: Collection, groups: seq<Group>)
    ensures var stream := Flatten(IncludedGroups(c, groups));
      var feed := CombinedFeed(c, groups);
      NonIncreasing(feed, CombinedDate) &&
      multiset(feed) == multiset(CombinedOf(stream)) &&
      (forall d :: WithKey(feed, CombinedDate, d) == WithKey(CombinedOf(stream), CombinedDate, d)) &&
      (forall x :: x in feed ==>
         exists g :: (g in groups && g.id in c.groupIds && x.expense in g.expenses &&
                      x.groupId == g.id && x.groupName == g.name && x.currency == g.currency))
  {
    var gs := IncludedGroups(c, groups);
    var stream := Flatten(gs);
    var feed := CombinedFeed(c, groups);
    SortDescSorted(CombinedOf(stream), CombinedDate);
    SortDescPermutation(CombinedOf(stream), CombinedDate);
    forall d ensures WithKey(feed, CombinedDate, d) == WithKey(CombinedOf(stream), CombinedDate, d) {
      SortDescStable(CombinedOf(stream), CombinedDate, d);
    }
    SortDescElements(CombinedOf(stream), CombinedDate);
    FlattenMembership(gs);
    forall x | x in feed
      ensures exists g :: (g in groups && g.id in c.groupIds && x.expense in g.expenses &&
                           x.groupId == g.id && x.groupName == g.name && x.currency == g.currency)
    {
      var k :| 0 <= k < |stream| && CombinedOf(stream)[k] == x;
      assert stream[k] in stream;
    }
  }

  // ---------------------------------------------------------------- the collection statistics

  /** What `calculateCollectionStats` returns, as one expression over the
      included groups and their expense stream. */
  function StatsOf(c: Collection, groups: seq<Group>): CollectionStats
  {
    var gs := IncludedGroups(c, groups);
    var es := AllExpenses(gs);
    var total := SumOf(es, ExpenseAmount);
    var locker := SumOf(es, LockerSpend);
    CollectionStats(
      total,
      locker,
      total - locker,
      SortDesc(WithPercentages(ContributionsOf(gs), total), GcTotal),
      SortDesc(CategoriesOf(es), CatAmount),
      SortDesc(MembersOf(Flatten(gs)), TotalSpent),
      |es|)
  }

  lemma StatsGroupBreakdown(c: Collection, groups: seq<Group>)
    ensures var gs := IncludedGroups(c, groups);
      StatsOf(c, groups).groupBreakdown ==
      SortDesc(WithPercentages(ContributionsOf(gs), SumOf(gs, GroupTotal)), GcTotal)
  {
    AllExpensesSums(IncludedGroups(c, groups));
  }

  /** The totals and the group rows: the total is the sum of the included
      groups' totals and the count the sum of their sizes; the group rows are
      the included groups' contributions, largest first, and their
      percentages add up to 100 when anything was spent. */
  lemma StatsGroupsSpec(c: Collection, groups: seq<Group>)
    ensures var s := StatsOf(c, groups);
      var gs := IncludedGroups(c, groups);
      s.totalExpenses == SumOf(gs, GroupTotal) &&
      s.expenseCount as real == SumOf(gs, ExpenseCount) &&
      NonIncreasing(s.groupBreakdown, GcTotal) &&
      multiset(s.groupBreakdown) == multiset(WithPercentages(ContributionsOf(gs), s.totalExpenses)) &&
      (s.totalExpenses > 0.0 ==> SumOf(s.groupBreakdown, GcPercentage) == 100.0)
  {
    var s := StatsOf(c, groups);
    var gs := IncludedGroups(c, groups);
    var gcs := WithPercentages(ContributionsOf(gs), s.totalExpenses);
    AllExpensesSums(gs);
    ContributionsTotal(gs);
    SortDescSorted(gcs, GcTotal);
    SortDescPermutation(gcs, GcTotal);
    PercentagesSum(ContributionsOf(gs), s.totalExpenses);
    SortDescSum(gcs, GcTotal, GcPercentage);
  }

  lemma SortedCategories(es: seq<Expense>)
    ensures var sorted := SortDesc(CategoriesOf(es), CatAmount);
      NonIncreasing(sorted, CatAmount) &&
      (forall t :: t in sorted ==> t.amount == SumFor(CategoryPairs(es), t.category)) &&
      SumOf(sorted, CatAmount) == SumOf(es, ExpenseAmount) &&
      SumOf(sorted, CatCount) == |es| as real
  {
    var cats := CategoriesOf(es);
    CategoryBreakdownSpec(es);
    SortDescSorted(cats, CatAmount);
    SortDescElements(cats, CatAmount);
    SortDescSum(cats, CatAmount, CatAmount);
    SortDescSum(cats, CatAmount, CatCount);
  }

  /** The category rows are largest first, each the sum of its category's
      amounts, and they add up to the total and to the count. */
  lemma StatsCategoriesSpec(c: Collection, groups: seq<Group>)
    ensures var s := StatsOf(c, groups);
      var es := AllExpenses(IncludedGroups(c, groups));
      NonIncreasing(s.categoryBreakdown, CatAmount) &&
      (forall t :: t in s.categoryBreakdown ==> t.amount == SumFor(CategoryPairs(es), t.category)) &&
      SumOf(s.categoryBreakdown, CatAmount) == s.totalExpenses &&
      SumOf(s.categoryBreakdown, CatCount) == s.expenseCount as real
  {
    SortedCategories(AllExpenses(IncludedGroups(c, groups)));
  }

  lemma SortedMemberRows(stream: seq<Placed>)
    ensures var entries := StreamEntries(stream);
      forall t :: t in SortDesc(MembersOf(stream), TotalSpent) ==>
        MemberConsistent(t) && t.totalSpent == SumFor(EntryPairs(entries), t.memberName)
  {
    var ms := MembersOf(stream);
    var entries := StreamEntries(stream);
    MemberBreakdownSpec(stream);
    SortDescElements(ms, TotalSpent);
    forall t | t in SortDesc(ms, TotalSpent)
      ensures MemberConsistent(t) && t.totalSpent == SumFor(EntryPairs(entries), t.memberName)
    {
      assert t in ms;
      var k :| 0 <= k < |ms| && ms[k] == t;
      assert ms[k].totalSpent == SumFor(EntryPairs(entries), ms[k].memberName);
    }
  }

  lemma SortedMembers(stream: seq<Placed>)
    ensures var sorted := SortDesc(MembersOf(stream), TotalSpent);
      var entries := StreamEntries(stream);
      NonIncreasing(sorted, TotalSpent) &&
      (forall t :: t in sorted ==>
         MemberConsistent(t) && t.totalSpent == SumFor(EntryPairs(entries), t.memberName)) &&
      SumOf(sorted, TotalSpent) == SumOf(entries, EntryAmount)
  {
    var ms := MembersOf(stream);
    MemberBreakdownSpec(stream);
    SortDescSorted(ms, TotalSpent);
    SortDescSum(ms, TotalSpent, TotalSpent);
    SortedMemberRows(stream);
  }

  /** The member rows are largest first, each the sum of its name's credited
      splits and consistent with its per-group breakdown, and together they
      add up to all credited splits. */
  lemma StatsMembersSpec(c: Collection, groups: seq<Group>)
    ensures var s := StatsOf(c, groups);
      var entries := StreamEntries(Flatten(IncludedGroups(c, groups)));
      NonIncreasing(s.memberBreakdown, TotalSpent) &&
      (forall t :: t in s.memberBreakdown ==>
         MemberConsistent(t) && t.totalSpent == SumFor(EntryPairs(entries), t.memberName)) &&
      SumOf(s.memberBreakdown, TotalSpent) == SumOf(entries, EntryAmount)
  {
    SortedMembers(Flatten(IncludedGroups(c, groups)));
  }
}
