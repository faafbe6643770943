/** The locker screen (src/components/LockerManager.tsx): deposits by one
    member, common-pool deposits that raise every budget by a per-head share,
    deposit deletion, budget edits, and the withdrawn/remaining figures.
    Each transition is a function from the group to the group it hands to
    `onUpdate`; the class `LockerScreen` holds the screen's input fields and
    the group, and commits each transition. */
module LockerManager {
  import opened Types
  import opened Seqs

  /** Every member's budget raised by `delta`; ids and names unchanged. */
  function RaiseBudgets(ms: seq<Member>, delta: real): (r: seq<Member>)
    ensures |r| == |ms|
    ensures forall i :: 0 <= i < |ms| ==> r[i] == ms[i].(budget := ms[i].budget + delta)
  {
    seq(|ms|, i requires 0 <= i < |ms| => ms[i].(budget := ms[i].budget + delta))
  }

  function Max0(x: real): real
  {
    if x < 0.0 then 0.0 else x
  }

  /** Every member's budget lowered by `delta`, but never below 0
      (`Math.max(0, budget - perHead)`). */
  function LowerBudgets(ms: seq<Member>, delta: real): (r: seq<Member>)
    ensures |r| == |ms|
    ensures forall i :: 0 <= i < |ms| ==> r[i] == ms[i].(budget := Max0(ms[i].budget - delta))
    ensures forall i :: 0 <= i < |ms| ==> r[i].budget >= 0.0
  {
    seq(|ms|, i requires 0 <= i < |ms| => ms[i].(budget := Max0(ms[i].budget - delta)))
  }

  /** The per-head share of a common-pool amount; with no members nobody's
      budget is touched, so the share is never used. */
  function PerHead(total: real, ms: seq<Member>): real
  {
    if |ms| == 0 then 0.0 else total / |ms| as real
  }

  /** `addDeposit`: without an amount or a selected member nothing happens;
      otherwise one deposit from that member is appended and the locker total
      grows by its amount. Nothing but the locker changes, and a balanced
      locker stays balanced. */
  function AddDeposit(g: Group, amount: Option<real>, member: string, id: string, date: int): (r: Group)
    ensures amount.None? || member == "" ==> r == g
    ensures amount.Some? && member != "" ==>
      r == g.(locker := r.locker) &&
      r.locker.deposits == g.locker.deposits + [Deposit(id, FromMember(member), amount.value, date)] &&
      r.locker.totalAmount == g.locker.totalAmount + amount.value
    ensures LockerBalanced(g.locker) ==> LockerBalanced(r.locker)
  {
    if amount.None? || member == "" then g
    else
      var d := Deposit(id, FromMember(member), amount.value, date);
      SumOfAppend(g.locker.deposits, [d], DepositAmount);
      assert SumOf([d], DepositAmount) == d.amount;
      g.(locker := Locker(g.locker.totalAmount + amount.value, g.locker.deposits + [d]))
  }

  /** `addCommonPool`: without an amount nothing happens; otherwise every
      member's budget grows by the amount over the number of members, one
      common-pool deposit of the full amount is appended and the locker total
      grows by it. A balanced locker stays balanced. */
  function AddCommonPool(g: Group, amount: Option<real>, id: string, date: int): (r: Group)
    ensures amount.None? ==> r == g
    ensures amount.Some? ==>
      r == g.(members := r.members, locker := r.locker) &&
      r.members == RaiseBudgets(g.members, PerHead(amount.value, g.members)) &&
      r.locker.deposits == g.locker.deposits + [Deposit(id, CommonPool, amount.value, date)] &&
      r.locker.totalAmount == g.locker.totalAmount + amount.value
    ensures LockerBalanced(g.locker) ==> LockerBalanced(r.locker)
  {
    if amount.None? then g
    else
      var total := amount.value;
      var d := Deposit(id, CommonPool, total, date);
      SumOfAppend(g.locker.deposits, [d], DepositAmount);
      assert SumOf([d], DepositAmount) == d.amount;
      g.(members := RaiseBudgets(g.members, PerHead(total, g.members)),
         locker := Locker(g.locker.totalAmount + total, g.locker.deposits + [d]))
  }

  /** `deposits.find(d => d.id === id)`. */
  function FindDeposit(ds: seq<Deposit>, id: string): (r: Option<Deposit>)
    ensures r.None? <==> forall i :: 0 <= i < |ds| ==> ds[i].id != id
    ensures r.Some? ==> exists i :: 0 <= i < |ds| && ds[i] == r.value && ds[i].id == id &&
                                    forall k :: 0 <= k < i ==> ds[k].id != id
  {
    if |ds| == 0 then None
    else if ds[0].id == id then Some(ds[0])
    else
      var r := FindDeposit(ds[1..], id);
      if r.Some? then
        var j :| 0 <= j < |ds| - 1 && ds[1..][j] == r.value && ds[1..][j].id == id &&
                 forall k :: 0 <= k < j ==> ds[1..][k].id != id;
        assert ds[j + 1] == r.value;
        r
      else r
  }

  function DepositIdIsNot(id: string): Deposit -> bool
  {
    (d: Deposit) => d.id != id
  }

  /** `deleteDeposit`: an unknown id or a declined confirmation leaves the
      group unchanged. Otherwise every deposit with that id is removed, the
      locker total drops by the amount of the first one, and when it came
      from the common pool every budget drops by the per-head share, never
      below 0. */
  function DeleteDeposit(g: Group, id: string, confirmed: bool): (r: Group)
    ensures FindDeposit(g.locker.deposits, id).None? || !confirmed ==> r == g
    ensures FindDeposit(g.locker.deposits, id).Some? && confirmed ==>
      var d := FindDeposit(g.locker.deposits, id).value;
      r == g.(members := r.members, locker := r.locker) &&
      r.locker.deposits == Filter(g.locker.deposits, DepositIdIsNot(id)) &&
      r.locker.totalAmount == g.locker.totalAmount - d.amount &&
      r.members == (if d.from == CommonPool then LowerBudgets(g.members, PerHead(d.amount, g.members))
                    else g.members)
  {
    var found := FindDeposit(g.locker.deposits, id);
    if found.None? || !confirmed then g
    else
      var d := found.value;
      var members := if d.from == CommonPool then LowerBudgets(g.members, PerHead(d.amount, g.members))
                     else g.members;
      g.(members := members,
         locker := Locker(g.locker.totalAmount - d.amount, Filter(g.locker.deposits, DepositIdIsNot(id))))
  }

  /** Filtering out the one deposit with a given id removes exactly its amount. */
  lemma {:induction false} FilterUniqueSum(ds: seq<Deposit>, id: string)
    requires UniqueDepositIds(ds)
    ensures FindDeposit(ds, id).Some? ==>
      SumOf(Filter(ds, DepositIdIsNot(id)), DepositAmount) == SumOf(ds, DepositAmount) - FindDeposit(ds, id).value.amount
    ensures FindDeposit(ds, id).None? ==> SumOf(Filter(ds, DepositIdIsNot(id)), DepositAmount) == SumOf(ds, DepositAmount)
  {
    if |ds| > 0 {
      var rest := ds[1..];
      assert UniqueDepositIds(rest);
      FilterUniqueSum(rest, id);
      SumOfCons(ds[0], rest, DepositAmount);
      assert ds == [ds[0]] + rest;
      if ds[0].id == id {
        assert FindDeposit(rest, id).None?;
        assert Filter(ds, DepositIdIsNot(id)) == Filter(rest, DepositIdIsNot(id));
      } else {
        SumOfCons(ds[0], Filter(rest, DepositIdIsNot(id)), DepositAmount);
      }
    }
  }

  /** With unique deposit ids, deleting a deposit keeps the locker balanced. */
  lemma DeleteDepositBalanced(g: Group, id: string, confirmed: bool)
    requires LockerBalanced(g.locker) && UniqueDepositIds(g.locker.deposits)
    ensures LockerBalanced(DeleteDeposit(g, id, confirmed).locker)
  {
    FilterUniqueSum(g.locker.deposits, id);
  }

  /** Deleting removes every deposit with the id but subtracts only once: two
      deposits sharing an id leave the total out of balance. */
  lemma DeleteDuplicateIdUnbalances(g: Group)
    requires g.locker == Locker(10.0, [Deposit("1", CommonPool, 5.0, 0), Deposit("1", CommonPool, 5.0, 0)])
    ensures LockerBalanced(g.locker)
    ensures !LockerBalanced(DeleteDeposit(g, "1", true).locker)
  {
    var ds := g.locker.deposits;
    SumOfCons(ds[0], ds[1..], DepositAmount);
    assert ds == [ds[0]] + ds[1..];
    assert ds[1..] == [ds[1]];
    assert Filter(ds, DepositIdIsNot("1")) == [];
  }

  /** A deposit id that is not among the existing deposits. */
  predicate FreshDepositId(ds: seq<Deposit>, id: string)
  {
    forall i :: 0 <= i < |ds| ==> ds[i].id != id
  }

  /** Deleting a common-pool deposit right after adding it restores the group
      exactly, when no budget was negative to begin with. */
  lemma {:induction false} CommonPoolRoundTrip(g: Group, amount: real, id: string, date: int)
    requires FreshDepositId(g.locker.deposits, id)
    requires forall i :: 0 <= i < |g.members| ==> g.members[i].budget >= 0.0
    ensures DeleteDeposit(AddCommonPool(g, Some(amount), id, date), id, true) == g
  {
    var a := AddCommonPool(g, Some(amount), id, date);
    var d := Deposit(id, CommonPool, amount, date);
    var share := PerHead(amount, g.members);
    FindAfterFresh(g.locker.deposits, d);
    FilterFresh(g.locker.deposits, d);
    assert PerHead(amount, a.members) == share;
    LowerAfterRaise(g.members, share);
    var r := DeleteDeposit(a, id, true);
    assert r.members == LowerBudgets(a.members, share) == g.members;
    assert r.locker == g.locker;
  }

  /** Lowering by the amount just added restores budgets that were not negative. */
  lemma LowerAfterRaise(ms: seq<Member>, delta: real)
    requires forall i :: 0 <= i < |ms| ==> ms[i].budget >= 0.0
    ensures LowerBudgets(RaiseBudgets(ms, delta), delta) == ms
  {
    var r := LowerBudgets(RaiseBudgets(ms, delta), delta);
    forall i | 0 <= i < |ms| ensures r[i] == ms[i] {
      assert Max0(ms[i].budget + delta - delta) == ms[i].budget;
    }
  }

  /** Deleting a member's deposit right after adding it restores the group exactly. */
  lemma {:induction false} DepositRoundTrip(g: Group, amount: real, member: string, id: string, date: int)
    requires FreshDepositId(g.locker.deposits, id) && member != ""
    ensures DeleteDeposit(AddDeposit(g, Some(amount), member, id, date), id, true) == g
  {
    var d := Deposit(id, FromMember(member), amount, date);
    FindAfterFresh(g.locker.deposits, d);
    FilterFresh(g.locker.deposits, d);
    var r := DeleteDeposit(AddDeposit(g, Some(amount), member, id, date), id, true);
    assert r.locker == g.locker;
  }

  lemma {:induction false} FindAfterFresh(ds: seq<Deposit>, d: Deposit)
    requires FreshDepositId(ds, d.id)
    ensures FindDeposit(ds + [d], d.id) == Some(d)
  {
    if |ds| > 0 {
      assert (ds + [d])[1..] == ds[1..] + [d];
      FindAfterFresh(ds[1..], d);
    }
  }

  lemma {:induction false} FilterFresh(ds: seq<Deposit>, d: Deposit)
    requires FreshDepositId(ds, d.id)
    ensures Filter(ds + [d], DepositIdIsNot(d.id)) == ds
  {
    FilterAppend(ds, [d], DepositIdIsNot(d.id));
    FilterAll(ds, DepositIdIsNot(d.id));
    assert Filter([d], DepositIdIsNot(d.id)) == [];
  }

  /** `updateMemberBudget`: the member with that id gets the new budget (an
      unparsable input arrives as 0); every other member and the locker are
      unchanged. */
  function UpdateMemberBudget(g: Group, memberId: string, budget: real): (r: Group)
    ensures r == g.(members := r.members)
    ensures |r.members| == |g.members|
    ensures forall i :: 0 <= i < |g.members| ==>
      r.members[i] == if g.members[i].id == memberId then g.members[i].(budget := budget) else g.members[i]
  {
    var ms := g.members;
    g.(members := seq(|ms|, i requires 0 <= i < |ms| =>
                        if ms[i].id == memberId then ms[i].(budget := budget) else ms[i]))
  }

  /** `paidByMultiple.find(p => p.payerId === 'locker')?.amount || 0`: the
      first locker contribution, or 0. */
  function FirstLockerContribution(cs: seq<Contribution>): real
  {
    if |cs| == 0 then 0.0
    else if cs[0].payer == LockerPayer then cs[0].amount
    else FirstLockerContribution(cs[1..])
  }

  /** What one expense takes out of the locker on this screen: all of a
      locker-paid expense, the first locker contribution of a multiple-payer
      expense, nothing otherwise. */
  function LockerDraw(e: Expense): real
  {
    match e.paidBy
    case ByLocker => e.amount
    case ByMultiple => if e.paidByMultiple.Some? then FirstLockerContribution(e.paidByMultiple.value) else 0.0
    case ByMember(_) => 0.0
  }

  predicate IsLockerPaid(e: Expense)
  {
    e.paidBy.ByLocker?
  }

  predicate IsMultiplePaid(e: Expense)
  {
    e.paidBy.ByMultiple?
  }

  function LockerPaidAmount(e: Expense): real
  {
    if IsLockerPaid(e) then e.amount else 0.0
  }

  /** The first locker contribution of a multiple-payer expense, else 0. */
  function MultipleLockerDraw(e: Expense): real
  {
    if IsMultiplePaid(e) && e.paidByMultiple.Some? then FirstLockerContribution(e.paidByMultiple.value) else 0.0
  }

  /** `totalWithdrawn`: the amounts of the locker-paid expenses plus the
      first locker contribution of each multiple-payer expense. */
  function TotalWithdrawn(es: seq<Expense>): (r: real)
    ensures r == SumOf(Filter(es, IsLockerPaid), ExpenseAmount) + SumOf(Filter(es, IsMultiplePaid), MultipleLockerDraw)
  {
    SumOfPlus(es, LockerPaidAmount, MultipleLockerDraw, LockerDraw);
    SumOfFiltered(es, IsLockerPaid, ExpenseAmount, LockerPaidAmount);
    SumOfFiltered(es, IsMultiplePaid, MultipleLockerDraw, MultipleLockerDraw);
    SumOf(es, LockerDraw)
  }

  /** `remaining`: what is left in the locker. For a balanced locker it is
      the deposits less the withdrawals, and it is negative exactly when
      more was withdrawn than deposited. */
  function Remaining(g: Group): (r: real)
    ensures LockerBalanced(g.locker) ==> r == SumOf(g.locker.deposits, DepositAmount) - TotalWithdrawn(g.expenses)
    ensures r < 0.0 <==> TotalWithdrawn(g.expenses) > g.locker.totalAmount
  {
    g.locker.totalAmount - TotalWithdrawn(g.expenses)
  }

  /** Nothing stops the locker from being overdrawn: an empty locker and
      one locker-paid expense leave a negative remainder. */
  lemma RemainingCanBeNegative(g: Group, e: Expense)
    requires g.locker == Locker(0.0, []) && g.expenses == [e]
    requires e.paidBy == ByLocker && e.amount > 0.0
    ensures Remaining(g) == -e.amount < 0.0
  {
    assert Filter([e], IsLockerPaid) == [e];
    assert Filter([e], IsMultiplePaid) == [];
    SumOfCons(e, [], ExpenseAmount);
    assert TotalWithdrawn(g.expenses) == e.amount;
  }

  /** Only a locker contribution counts: a multiple-payer expense whose
      contributions come from members alone draws nothing. */
  lemma {:induction false} NoLockerContributionDrawsNothing(cs: seq<Contribution>)
    requires forall i :: 0 <= i < |cs| ==> cs[i].payer != LockerPayer
    ensures FirstLockerContribution(cs) == 0.0
  {
    if |cs| > 0 {
      NoLockerContributionDrawsNothing(cs[1..]);
    }
  }

  /** Adding an expense lowers `remaining` by exactly its locker draw; a
      deposit raises it by the deposit. */
  lemma RemainingMoves(g: Group, e: Expense, amount: real, member: string, id: string, date: int)
    requires member != ""
    ensures Remaining(g.(expenses := g.expenses + [e])) == Remaining(g) - LockerDraw(e)
    ensures Remaining(AddDeposit(g, Some(amount), member, id, date)) == Remaining(g) + amount
  {
    SumOfAppend(g.expenses, [e], LockerDraw);
    assert SumOf([e], LockerDraw) == LockerDraw(e);
  }

  /** The screen's state: the group it shows and its input fields (`None` or
      `""` for an empty input). */
  class LockerScreen {
    var group: Group
    var amount: Option<real>
    var selectedMember: string
    var commonPoolAmount: Option<real>
    var editingBudgets: map<string, string>

    constructor (g: Group)
      ensures group == g && amount == None && selectedMember == "" && commonPoolAmount == None
      ensures editingBudgets == map[]
    {
      group := g;
      amount := None;
      selectedMember := "";
      commonPoolAmount := None;
      editingBudgets := map[];
    }

    /** `addDeposit`, committing the new group and clearing both inputs. */
    method CommitDeposit(id: string, date: int)
      modifies this
      ensures group == AddDeposit(old(group), old(amount), old(selectedMember), id, date)
      ensures old(amount).Some? && old(selectedMember) != "" ==> amount == None && selectedMember == ""
      ensures old(amount).None? || old(selectedMember) == "" ==>
        amount == old(amount) && selectedMember == old(selectedMember)
      ensures commonPoolAmount == old(commonPoolAmount) && editingBudgets == old(editingBudgets)
      ensures LockerBalanced(old(group).locker) ==> LockerBalanced(group.locker)
    {
      if amount.Some? && selectedMember != "" {
        group := AddDeposit(group, amount, selectedMember, id, date);
        amount := None;
        selectedMember := "";
      }
    }

    /** `addCommonPool`, committing the new group and clearing its input. */
    method CommitCommonPool(id: string, date: int)
      modifies this
      ensures group == AddCommonPool(old(group), old(commonPoolAmount), id, date)
      ensures commonPoolAmount == None
      ensures amount == old(amount) && selectedMember == old(selectedMember)
      ensures editingBudgets == old(editingBudgets)
      ensures LockerBalanced(old(group).locker) ==> LockerBalanced(group.locker)
    {
      if commonPoolAmount.Some? {
        group := AddCommonPool(group, commonPoolAmount, id, date);
        commonPoolAmount := None;
      }
    }

    /** `deleteDeposit`, with the answer to the confirmation as a parameter. */
    method CommitDeleteDeposit(id: string, confirmed: bool)
      modifies this
      ensures group == DeleteDeposit(old(group), id, confirmed)
      ensures amount == old(amount) && selectedMember == old(selectedMember)
      ensures commonPoolAmount == old(commonPoolAmount) && editingBudgets == old(editingBudgets)
      ensures LockerBalanced(old(group).locker) && UniqueDepositIds(old(group).locker.deposits) ==>
        LockerBalanced(group.locker)
    {
      if LockerBalanced(group.locker) && UniqueDepositIds(group.locker.deposits) {
        DeleteDepositBalanced(group, id, confirmed);
      }
      group := DeleteDeposit(group, id, confirmed);
    }

    /** `updateMemberBudget`, committing the group and clearing that member's
        budget input. */
    method CommitMemberBudget(memberId: string, budget: real)
      modifies this
      ensures group == UpdateMemberBudget(old(group), memberId, budget)
      ensures editingBudgets == old(editingBudgets)[memberId := ""]
      ensures amount == old(amount) && selectedMember == old(selectedMember)
      ensures commonPoolAmount == old(commonPoolAmount)
    {
      group := UpdateMemberBudget(group, memberId, budget);
      editingBudgets := editingBudgets[memberId := ""];
    }
  }
}
