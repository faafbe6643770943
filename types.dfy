/** The records of the ledger (src/types/app.ts). Money is `real`, dates are
    `int` timestamps, ids are strings. */
module Types {
  import opened Seqs

  datatype Option<T> = None | Some(value: T)

  /** The four currencies of the rate table; a group's amounts are in its currency. */
  datatype Currency = INR | VND | MYR | USD

  /** `Expense.paidBy`: the cash locker, several payers, or one member's id. */
  datatype PaidBy = ByLocker | ByMultiple | ByMember(memberId: string)

  /** `PaymentContribution.payerId`: the cash locker or a member's id. */
  datatype Payer = LockerPayer | MemberPayer(memberId: string)

  datatype SplitType = Equal | Ratio | Manual | Shares

  /** `Deposit.memberId`: the common pool, or the member who deposited. */
  datatype DepositFrom = CommonPool | FromMember(memberId: string)

  datatype Member = Member(id: string, name: string, budget: real)

  datatype Deposit = Deposit(id: string, from: DepositFrom, amount: real, date: int)

  /** `totalAmount` is a cached figure; at rest it equals the sum of the deposits. */
  datatype Locker = Locker(totalAmount: real, deposits: seq<Deposit>)

  datatype Contribution = Contribution(payer: Payer, amount: real)

  /** `amount` is what the member owes; `ratio`/`shares` keep the weight it came from. */
  datatype ExpenseSplit = ExpenseSplit(memberId: string, amount: real, ratio: Option<real>, shares: Option<real>)

  datatype Expense = Expense(
    id: string,
    name: string,
    amount: real,
    date: int,
    category: string,
    paidBy: PaidBy,
    paidByMultiple: Option<seq<Contribution>>,
    splitType: SplitType,
    splits: seq<ExpenseSplit>)

  datatype Group = Group(
    id: string,
    name: string,
    icon: Option<string>,
    currency: Currency,
    members: seq<Member>,
    locker: Locker,
    expenses: seq<Expense>,
    createdAt: int)

  /** A non-owning set of references to groups, by id. */
  datatype Collection = Collection(
    id: string,
    name: string,
    icon: Option<string>,
    groupIds: seq<string>,
    createdAt: int,
    updatedAt: int)

  datatype GroupContribution = GroupContribution(
    groupId: string,
    groupName: string,
    groupIcon: Option<string>,
    currency: Currency,
    totalExpenses: real,
    expenseCount: nat,
    percentage: real)

  datatype CategoryTotal = CategoryTotal(category: string, amount: real, count: nat)

  /** One element of `MemberTotal.groupBreakdown`. */
  datatype GroupShare = GroupShare(groupId: string, groupName: string, amount: real)

  datatype MemberTotal = MemberTotal(memberName: string, totalSpent: real, groupBreakdown: seq<GroupShare>)

  datatype CollectionStats = CollectionStats(
    totalExpenses: real,
    totalLockerSpending: real,
    totalPersonalSpending: real,
    groupBreakdown: seq<GroupContribution>,
    categoryBreakdown: seq<CategoryTotal>,
    memberBreakdown: seq<MemberTotal>,
    expenseCount: nat)

  /** An expense tagged with the group it came from. */
  datatype CombinedExpense = CombinedExpense(
    expense: Expense,
    groupId: string,
    groupName: string,
    groupIcon: Option<string>,
    currency: Currency)

  // Projections used as sort keys and summands.

  function ExpenseAmount(e: Expense): real { e.amount }
  function SplitAmount(s: ExpenseSplit): real { s.amount }
  function DepositAmount(d: Deposit): real { d.amount }
  function ContributionAmount(c: Contribution): real { c.amount }
  function MemberBudget(m: Member): real { m.budget }

  // Ids, used as the key of a replacement by id.

  function ExpenseIdOf(e: Expense): string { e.id }
  function GroupIdOf(g: Group): string { g.id }
  function CollectionIdOf(c: Collection): string { c.id }

  function MemberIds(ms: seq<Member>): (ids: seq<string>)
    ensures |ids| == |ms| && forall i :: 0 <= i < |ms| ==> ids[i] == ms[i].id
  {
    seq(|ms|, i requires 0 <= i < |ms| => ms[i].id)
  }

  function GroupIds(gs: seq<Group>): (ids: seq<string>)
    ensures |ids| == |gs| && forall i :: 0 <= i < |gs| ==> ids[i] == gs[i].id
  {
    seq(|gs|, i requires 0 <= i < |gs| => gs[i].id)
  }

  /** The (category, amount) pair each expense contributes to a category accumulator. */
  function CategoryPairs(es: seq<Expense>): (ps: seq<(string, real)>)
    ensures |ps| == |es|
    ensures forall i :: 0 <= i < |es| ==> ps[i] == (es[i].category, es[i].amount)
  {
    seq(|es|, i requires 0 <= i < |es| => (es[i].category, es[i].amount))
  }

  /** The locker invariant: the cached total equals the sum of the deposits. */
  predicate LockerBalanced(l: Locker)
  {
    l.totalAmount == SumOf(l.deposits, DepositAmount)
  }

  /** Deposit ids are pairwise distinct. */
  predicate UniqueDepositIds(ds: seq<Deposit>)
  {
    forall i, j :: 0 <= i < j < |ds| ==> ds[i].id != ds[j].id
  }

  /** `paidByMultiple` is present exactly for multiple-payer expenses. */
  predicate PaymentShapeOk(e: Expense)
  {
    e.paidByMultiple.Some? <==> e.paidBy == ByMultiple
  }
}
