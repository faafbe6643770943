/** The expense list of a group (src/components/ExpensesList.tsx): adding,
    deleting and updating expenses, the member-name and payer labels, and
    the split total shown under an expanded expense. */
module ExpensesList {
  import opened Types
  import opened Seqs
  import opened Text
  import Aggregates
  import GroupSetup
  import AddExpense

  function ExpenseIdIsNot(id: string): Expense -> bool
  {
    (e: Expense) => e.id != id
  }

  /** The group committed by `handleAddExpense`. */
  function AddExpenseTo(g: Group, e: Expense): (r: Group)
    ensures r == g.(expenses := r.expenses)
    ensures |r.expenses| == |g.expenses| + 1
    ensures r.expenses[..|g.expenses|] == g.expenses && r.expenses[|g.expenses|] == e
  {
    g.(expenses := g.expenses + [e])
  }

  /** The group committed by `handleDelete`; without confirmation nothing
      happens. */
  function DeleteExpense(g: Group, id: string, confirmed: bool): (r: Group)
    ensures r == g.(expenses := r.expenses)
    ensures !confirmed ==> r == g
    ensures confirmed ==> forall e :: e in r.expenses <==> e in g.expenses && e.id != id
  {
    if confirmed then g.(expenses := Filter(g.expenses, ExpenseIdIsNot(id))) else g
  }

  /** The remaining expenses keep their order: an expense appended to the
      list is appended to the result exactly when it has another id. */
  lemma DeleteExpenseKeepsOrder(g: Group, e: Expense, id: string)
    ensures DeleteExpense(g.(expenses := g.expenses + [e]), id, true).expenses ==
      DeleteExpense(g, id, true).expenses + (if e.id != id then [e] else [])
  {
    FilterSnoc(g.expenses, e, ExpenseIdIsNot(id));
  }

  /** The group committed by `handleUpdate`. */
  function UpdateExpense(g: Group, u: Expense): (r: Group)
    ensures r == g.(expenses := r.expenses)
    ensures |r.expenses| == |g.expenses|
    ensures forall e :: e in r.expenses ==> e == u || (e in g.expenses && e.id != u.id)
  {
    g.(expenses := ReplaceByKey(g.expenses, ExpenseIdOf, u))
  }

  predicate UniqueExpenseIds(es: seq<Expense>)
  {
    forall i, j :: 0 <= i < j < |es| ==> es[i].id != es[j].id
  }

  /** Deleting an id that no expense has changes nothing. */
  lemma DeleteAbsent(g: Group, id: string)
    requires forall e :: e in g.expenses ==> e.id != id
    ensures DeleteExpense(g, id, true) == g
  {
    FilterAll(g.expenses, ExpenseIdIsNot(id));
  }

  /** With unique ids, deleting the id of the `k`-th expense removes exactly
      that expense and keeps the others in order. */
  lemma DeleteOne(g: Group, k: nat)
    requires k < |g.expenses| && UniqueExpenseIds(g.expenses)
    ensures DeleteExpense(g, g.expenses[k].id, true).expenses == g.expenses[..k] + g.expenses[k + 1..]
  {
    var es := g.expenses;
    var p := ExpenseIdIsNot(es[k].id);
    var before, after := es[..k], es[k + 1..];
    assert es == before + [es[k]] + after;
    forall x | x in before ensures p(x) {
      var i :| 0 <= i < k && before[i] == x;
      assert es[i] == x;
    }
    forall x | x in after ensures p(x) {
      var i :| 0 <= i < |after| && after[i] == x;
      assert es[k + 1 + i] == x;
    }
    FilterDropsOne(before, es[k], after, p);
  }

  /** Adding an expense with a fresh id and deleting it again restores the group. */
  lemma AddThenDelete(g: Group, e: Expense)
    requires forall x :: x in g.expenses ==> x.id != e.id
    ensures DeleteExpense(AddExpenseTo(g, e), e.id, true) == g
  {
    var p := ExpenseIdIsNot(e.id);
    FilterAppend(g.expenses, [e], p);
    FilterAll(g.expenses, p);
    assert Filter([e], p) == [];
  }

  /** With unique ids, updating replaces exactly the expense with that id. */
  lemma UpdateOne(g: Group, k: nat, u: Expense)
    requires k < |g.expenses| && UniqueExpenseIds(g.expenses) && g.expenses[k].id == u.id
    ensures UpdateExpense(g, u).expenses == g.expenses[k := u]
  {
  }

  /** Updating an id that no expense has changes nothing. */
  lemma UpdateAbsent(g: Group, u: Expense)
    requires forall e :: e in g.expenses ==> e.id != u.id
    ensures UpdateExpense(g, u) == g
  {
    assert ReplaceByKey(g.expenses, ExpenseIdOf, u) == g.expenses;
  }

  /** `getMemberName`: the first member with the id, by name; "Unknown" when
      there is none or its name is empty. */
  function GetMemberName(ms: seq<Member>, id: string): (r: string)
    ensures (forall m :: m in ms ==> m.id != id) ==> r == "Unknown"
    ensures forall i :: 0 <= i < |ms| && ms[i].id == id && (forall k :: 0 <= k < i ==> ms[k].id != id) ==>
      r == (if ms[i].name != "" then ms[i].name else "Unknown")
    ensures r != "Unknown" ==> exists m :: m in ms && m.id == id && m.name == r
    ensures r != []
  {
    var m := Aggregates.FindMember(ms, id);
    if m.Some? && m.value.name != "" then m.value.name else "Unknown"
  }

  /** A member added by the setup form under a fresh id is shown by the name
      it was given, trimmed. */
  lemma {:induction false} AddedMemberNamed(ms: seq<Member>, name: string, freshId: string)
    requires forall m :: m in ms ==> m.id != freshId
    requires !Blank(name)
    ensures GetMemberName(GroupSetup.AddMemberTo(ms, name, freshId), freshId) == Trim(name)
  {
    var r := GroupSetup.AddMemberTo(ms, name, freshId);
    assert r[|ms|].id == freshId;
    assert forall k :: 0 <= k < |ms| ==> r[k].id != freshId by {
      forall k | 0 <= k < |ms| ensures r[k].id != freshId {
        assert r[k] == ms[k];
      }
    }
  }

  /** What `getPaidByLabel` shows: the locker, the number of payers, or a name. */
  datatype PaidByLabel = LockerLabel | MultipleLabel(count: nat) | MemberLabel(name: string)

  function GetPaidByLabel(ms: seq<Member>, e: Expense): (r: PaidByLabel)
    ensures r.LockerLabel? <==> e.paidBy == ByLocker
    ensures r.MultipleLabel? <==> e.paidBy == ByMultiple
    ensures r.MultipleLabel? ==> r.count == if e.paidByMultiple.Some? then |e.paidByMultiple.value| else 0
    ensures e.paidBy.ByMember? ==> r == MemberLabel(GetMemberName(ms, e.paidBy.memberId))
  {
    match e.paidBy
    case ByLocker => LockerLabel
    case ByMultiple => MultipleLabel(if e.paidByMultiple.Some? then |e.paidByMultiple.value| else 0)
    case ByMember(id) => MemberLabel(GetMemberName(ms, id))
  }

  /** The total shown under an expanded expense. */
  function SplitTotal(e: Expense): real
  {
    SumOf(e.splits, SplitAmount)
  }

  /** For an expense saved from the form with an equal, ratio or shares
      split, the displayed split total is the expense amount; a manual split
      shows the sum of the typed amounts, whatever the amount. */
  lemma SavedSplitTotal(d: AddExpense.Draft, existingId: Option<string>, freshId: string)
    requires AddExpense.WeightsDefined(d.splitType, d.selected, d.ratios, d.shares)
    requires AddExpense.Submit(d, existingId, freshId).Saved?
    ensures var e := AddExpense.Submit(d, existingId, freshId).expense;
      (d.splitType != Manual ==> SplitTotal(e) == e.amount) &&
      (d.splitType == Manual ==> SplitTotal(e) == AddExpense.TotalWeight(d.selected, d.manual))
  {
    var e := AddExpense.Submit(d, existingId, freshId).expense;
    match d.splitType
    case Equal => AddExpense.EqualSplitSums(e.amount, d.selected, d.manual, d.ratios, d.shares);
    case Ratio => AddExpense.WeightedSplitSums(e.amount, Ratio, d.selected, d.manual, d.ratios, d.shares);
    case Shares => AddExpense.WeightedSplitSums(e.amount, Shares, d.selected, d.manual, d.ratios, d.shares);
    case Manual => AddExpense.ManualSplitSums(e.amount, d.selected, d.manual, d.ratios, d.shares);
  }

  /** The list's state: the group shown, whether the form is open, and the
      expense being edited. */
  class ExpensesScreen {
    var group: Group
    var showAddForm: bool
    var editingExpense: Option<Expense>

    constructor (g: Group)
      ensures group == g && !showAddForm && editingExpense == None
    {
      group := g;
      showAddForm := false;
      editingExpense := None;
    }

    /** `handleAddExpense`: commit the appended expense and close the form. */
    method HandleAddExpense(e: Expense)
      modifies this
      ensures group == AddExpenseTo(old(group), e)
      ensures !showAddForm && editingExpense == old(editingExpense)
    {
      group := AddExpenseTo(group, e);
      showAddForm := false;
    }

    /** `handleDelete`. */
    method HandleDelete(id: string, confirmed: bool)
      modifies this
      ensures group == DeleteExpense(old(group), id, confirmed)
      ensures showAddForm == old(showAddForm) && editingExpense == old(editingExpense)
    {
      group := DeleteExpense(group, id, confirmed);
    }

    /** `handleEdit`: open the form on an expense. */
    method HandleEdit(e: Expense)
      modifies this
      ensures group == old(group) && showAddForm && editingExpense == Some(e)
    {
      editingExpense := Some(e);
      showAddForm := true;
    }

    /** `handleUpdate`: commit the replacement, close the form, stop editing. */
    method HandleUpdate(u: Expense)
      modifies this
      ensures group == UpdateExpense(old(group), u)
      ensures !showAddForm && editingExpense == None
    {
      group := UpdateExpense(group, u);
      showAddForm := false;
      editingExpense := None;
    }
  }
}
