/** The group summary (src/components/SummaryDashboard.tsx): per-member
    consumption and personal payments, budget use, the group totals, the
    locker withdrawals and the category totals. The per-member figures are
    accumulated in loops, as in the source; each loop is proved against a
    sum over the expenses. */
module Summary {
  import opened Types
  import opened Seqs
  import opened Buckets
  import LockerManager

  /** `splits.find(s => s.memberId === id)?.amount`, or 0 without such a split. */
  function FirstSplitAmount(splits: seq<ExpenseSplit>, memberId: string): real
  {
    if |splits| == 0 then 0.0
    else if splits[0].memberId == memberId then splits[0].amount
    else FirstSplitAmount(splits[1..], memberId)
  }

  /** The first contribution by `payer`, or 0 without one. */
  function FirstContribution(cs: seq<Contribution>, payer: Payer): real
  {
    if |cs| == 0 then 0.0
    else if cs[0].payer == payer then cs[0].amount
    else FirstContribution(cs[1..], payer)
  }

  /** What one expense adds to a member's consumption, whoever paid it. */
  function Share(memberId: string): Expense -> real
  {
    (e: Expense) => FirstSplitAmount(e.splits, memberId)
  }

  /** What one expense adds to a member's personal payments: all of it when
      the member paid it alone, the member's first contribution when several
      paid, nothing otherwise. */
  function Payment(memberId: string): Expense -> real
  {
    (e: Expense) =>
      if e.paidBy == ByMember(memberId) then e.amount
      else if e.paidBy == ByMultiple && e.paidByMultiple.Some? then
        FirstContribution(e.paidByMultiple.value, MemberPayer(memberId))
      else 0.0
  }

  /** The member's consumption: the sum over the expenses of the member's split. */
  function Consumed(es: seq<Expense>, memberId: string): real
  {
    SumOf(es, Share(memberId))
  }

  /** What the member paid personally. */
  function PersonallyPaid(es: seq<Expense>, memberId: string): real
  {
    SumOf(es, Payment(memberId))
  }

  /** The `let consumed` loop. */
  method ComputeConsumed(es: seq<Expense>, memberId: string) returns (consumed: real)
    ensures consumed == Consumed(es, memberId)
  {
    consumed := 0.0;
    var i := 0;
    while i < |es|
      invariant 0 <= i <= |es|
      invariant consumed == SumOf(es[..i], Share(memberId))
    {
      SumOfPrefix(es, i, Share(memberId));
      var split := FirstSplitAmount(es[i].splits, memberId);
      consumed := consumed + split;
      i := i + 1;
    }
    assert es[..|es|] == es;
  }

  /** The `let personallyPaid` loop. */
  method ComputePersonallyPaid(es: seq<Expense>, memberId: string) returns (paid: real)
    ensures paid == PersonallyPaid(es, memberId)
  {
    paid := 0.0;
    var i := 0;
    while i < |es|
      invariant 0 <= i <= |es|
      invariant paid == SumOf(es[..i], Payment(memberId))
    {
      SumOfPrefix(es, i, Payment(memberId));
      var e := es[i];
      if e.paidBy == ByMember(memberId) {
        paid := paid + e.amount;
      } else if e.paidBy == ByMultiple && e.paidByMultiple.Some? {
        paid := paid + FirstContribution(e.paidByMultiple.value, MemberPayer(memberId));
      }
      i := i + 1;
    }
    assert es[..|es|] == es;
  }

  datatype MemberStat = MemberStat(
    id: string,
    name: string,
    budget: real,
    consumed: real,
    personallyPaid: real,
    remaining: real,
    percentUsed: real,
    isOverBudget: bool)

  /** What the row of a member promises: its consumption and payments over
      the expenses, what is left of the budget, the share of the budget used
      (0 without a positive budget), and the over-budget flag exactly when
      consumption exceeds the budget. */
  predicate StatFor(s: MemberStat, m: Member, es: seq<Expense>)
  {
    s.id == m.id && s.name == m.name && s.budget == m.budget &&
    s.consumed == Consumed(es, m.id) &&
    s.personallyPaid == PersonallyPaid(es, m.id) &&
    s.remaining == m.budget - s.consumed &&
    (m.budget > 0.0 ==> s.percentUsed * m.budget == s.consumed * 100.0) &&
    (m.budget <= 0.0 ==> s.percentUsed == 0.0) &&
    (s.isOverBudget <==> s.consumed > m.budget)
  }

  lemma PercentOfBudget(consumed: real, budget: real)
    requires budget > 0.0
    ensures consumed / budget * 100.0 * budget == consumed * 100.0
  {
  }

  /** One element of `memberStats`. */
  method ComputeMemberStat(m: Member, es: seq<Expense>) returns (s: MemberStat)
    ensures StatFor(s, m, es)
  {
    var consumed := ComputeConsumed(es, m.id);
    var paid := ComputePersonallyPaid(es, m.id);
    var remaining := m.budget - consumed;
    var percentUsed := if m.budget > 0.0 then consumed / m.budget * 100.0 else 0.0;
    if m.budget > 0.0 {
      PercentOfBudget(consumed, m.budget);
    }
    s := MemberStat(m.id, m.name, m.budget, consumed, paid, remaining, percentUsed, remaining < 0.0);
  }

  function StatBudget(s: MemberStat): real { s.budget }
  function StatConsumed(s: MemberStat): real { s.consumed }
  function StatPaid(s: MemberStat): real { s.personallyPaid }

  /** Consumption and payments as functions of the member, for sums over members. */
  function ConsumedOf(es: seq<Expense>): Member -> real
  {
    (m: Member) => Consumed(es, m.id)
  }

  function PaidOf(es: seq<Expense>): Member -> real
  {
    (m: Member) => PersonallyPaid(es, m.id)
  }

  datatype Stats = Stats(
    memberStats: seq<MemberStat>,
    totalBudget: real,
    totalConsumed: real,
    totalPaid: real,
    lockerDeposited: real,
    lockerWithdrawn: real,
    categoryData: seq<(string, real)>)

  /** The `categoryStats` reduce, bumping its accumulator in place. */
  method ComputeCategoryData(es: seq<Expense>) returns (acc: seq<(string, real)>)
    ensures acc == Accumulate(CategoryPairs(es))
  {
    var ps := CategoryPairs(es);
    acc := [];
    var i := 0;
    while i < |es|
      invariant 0 <= i <= |es|
      invariant acc == Accumulate(ps[..i])
    {
      AccumulateStep(ps, i);
      acc := Add(acc, es[i].category, es[i].amount);
      i := i + 1;
    }
    assert ps[..|es|] == ps;
  }

  /** The `stats` memo. A group without members shows no statistics (None).
      Otherwise there is one row per member, in member order; the totals are
      the sums of the rows, which are the sums of the members' budgets,
      consumption and payments; the locker figures are its total and the
      withdrawals counted as on the locker screen; the category data is the
      category accumulator over the expenses. */
  method ComputeStats(g: Group) returns (r: Option<Stats>)
    ensures r.None? <==> |g.members| == 0
    ensures r.Some? ==>
      var s := r.value;
      |s.memberStats| == |g.members| &&
      (forall i :: 0 <= i < |g.members| ==> StatFor(s.memberStats[i], g.members[i], g.expenses)) &&
      s.totalBudget == SumOf(g.members, MemberBudget) &&
      s.totalConsumed == SumOf(g.members, ConsumedOf(g.expenses)) &&
      s.totalPaid == SumOf(g.members, PaidOf(g.expenses)) &&
      s.lockerDeposited == g.locker.totalAmount &&
      s.lockerWithdrawn == LockerManager.TotalWithdrawn(g.expenses) &&
      s.categoryData == Accumulate(CategoryPairs(g.expenses))
  {
    if |g.members| == 0 {
      return None;
    }
    var stats: seq<MemberStat> := [];
    var i := 0;
    while i < |g.members|
      invariant 0 <= i <= |g.members|
      invariant |stats| == i
      invariant forall k :: 0 <= k < i ==> StatFor(stats[k], g.members[k], g.expenses)
    {
      var s := ComputeMemberStat(g.members[i], g.expenses);
      stats := stats + [s];
      i := i + 1;
    }
    SumOfPointwise(stats, g.members, StatBudget, MemberBudget);
    SumOfPointwise(stats, g.members, StatConsumed, ConsumedOf(g.expenses));
    SumOfPointwise(stats, g.members, StatPaid, PaidOf(g.expenses));
    var categories := ComputeCategoryData(g.expenses);
    r := Some(Stats(
      stats,
      SumOf(stats, StatBudget),
      SumOf(stats, StatConsumed),
      SumOf(stats, StatPaid),
      g.locker.totalAmount,
      LockerManager.TotalWithdrawn(g.expenses),
      categories));
  }

  /** The category data has one entry per distinct category, in order of
      first appearance; each entry is the sum of that category's amounts; and
      the entries add up to the sum of all expense amounts. */
  lemma CategoryDataSpec(es: seq<Expense>)
    ensures KeysOf(Accumulate(CategoryPairs(es))) == Dedup(KeysOf(CategoryPairs(es)))
    ensures forall i :: 0 <= i < |Accumulate(CategoryPairs(es))| ==>
      Accumulate(CategoryPairs(es))[i].1 == SumFor(CategoryPairs(es), Accumulate(CategoryPairs(es))[i].0)
    ensures SumOf(Accumulate(CategoryPairs(es)), Value) == SumOf(es, ExpenseAmount)
  {
    AccumulateSpec(CategoryPairs(es));
    SumOfPointwise(CategoryPairs(es), es, Value, ExpenseAmount);
  }
}
