/** The expense form (src/components/AddExpense.tsx): the split calculator,
    the submit validation that builds the `Expense`, and the member selection
    the form keeps as state. The form's text inputs arrive already parsed:
    `parseFloat(m[id]) || 0` is `Parsed(m, id)`, an entry that is missing or
    does not parse being absent from the map. */
module AddExpense {
  import opened Types
  import opened Seqs
  import opened Text

  /** `parseFloat(m[id]) || 0`. */
  function Parsed(m: map<string, real>, id: string): real
  {
    if id in m then m[id] else 0.0
  }

  /** `selectedMembers.reduce((sum, id) => sum + (parseFloat(w[id]) || 0), 0)`. */
  function TotalWeight(selected: seq<string>, w: map<string, real>): real
  {
    SumOf(selected, WeightIn(w))
  }

  function WeightIn(w: map<string, real>): string -> real
  {
    id => Parsed(w, id)
  }

  function ScaledWeightIn(w: map<string, real>, c: real): string -> real
  {
    id => Parsed(w, id) * c
  }

  /** The weighted strategies divide by the weight total; a zero total (NaN or
      an infinity in the source) is excluded. */
  predicate WeightsDefined(st: SplitType, selected: seq<string>, ratios: map<string, real>, shares: map<string, real>)
  {
    |selected| > 0 ==>
      (st == Ratio ==> TotalWeight(selected, ratios) != 0.0) &&
      (st == Shares ==> TotalWeight(selected, shares) != 0.0)
  }

  /** The split one strategy gives the selected member `id`. */
  function SplitOf(st: SplitType, total: real, selected: seq<string>, manual: map<string, real>,
                   ratios: map<string, real>, shares: map<string, real>, id: string): ExpenseSplit
    requires |selected| > 0 && WeightsDefined(st, selected, ratios, shares)
  {
    match st
    case Equal => ExpenseSplit(id, total / |selected| as real, None, None)
    case Ratio =>
      var w := Parsed(ratios, id);
      ExpenseSplit(id, w / TotalWeight(selected, ratios) * total, Some(w), None)
    case Manual => ExpenseSplit(id, Parsed(manual, id), None, None)
    case Shares =>
      var w := Parsed(shares, id);
      ExpenseSplit(id, w / TotalWeight(selected, shares) * total, None, Some(w))
  }

  /** `calculateSplits`: one split per selected member, in selection order,
      carrying the member's id; the ratio and shares strategies record the
      weight they used, and the manual strategy takes each amount as typed. */
  function CalculateSplits(total: real, st: SplitType, selected: seq<string>, manual: map<string, real>,
                           ratios: map<string, real>, shares: map<string, real>): (r: seq<ExpenseSplit>)
    requires WeightsDefined(st, selected, ratios, shares)
    ensures |r| == |selected|
    ensures forall i :: 0 <= i < |r| ==> r[i].memberId == selected[i]
    ensures forall i :: 0 <= i < |r| ==>
      r[i].ratio == (if st == Ratio then Some(Parsed(ratios, selected[i])) else None)
    ensures forall i :: 0 <= i < |r| ==>
      r[i].shares == (if st == Shares then Some(Parsed(shares, selected[i])) else None)
    ensures st == Manual ==> forall i :: 0 <= i < |r| ==> r[i].amount == Parsed(manual, selected[i])
  {
    seq(|selected|, i requires 0 <= i < |selected| => SplitOf(st, total, selected, manual, ratios, shares, selected[i]))
  }

  /** An equal split gives every member the same amount, and the amounts add
      up to the total. */
  lemma EqualSplitSums(total: real, selected: seq<string>, manual: map<string, real>,
                       ratios: map<string, real>, shares: map<string, real>)
    requires |selected| > 0
    ensures var r := CalculateSplits(total, Equal, selected, manual, ratios, shares);
      (forall i, j :: 0 <= i < |r| && 0 <= j < |r| ==> r[i].amount == r[j].amount) &&
      SumOf(r, SplitAmount) == total
  {
    var r := CalculateSplits(total, Equal, selected, manual, ratios, shares);
    var n := |selected| as real;
    SumOfConst(r, SplitAmount, total / n);
    assert n * (total / n) == total;
  }

  /** The weights a weighted strategy reads. */
  function WeightsOf(st: SplitType, ratios: map<string, real>, shares: map<string, real>): map<string, real>
  {
    if st == Ratio then ratios else shares
  }

  lemma ShareScale(w: real, tw: real, t: real)
    requires tw != 0.0
    ensures w / tw * t == w * (t / tw)
  {
  }

  lemma ShareCross(a: real, b: real, c: real)
    ensures a * c * b == b * c * a
  {
  }

  lemma ShareTotal(tw: real, t: real)
    requires tw != 0.0
    ensures tw * (t / tw) == t
  {
  }

  /** One member's amount in a ratio or shares split: its weight times the
      total over the weight total. */
  lemma {:induction false} WeightedSplitAt(total: real, st: SplitType, selected: seq<string>, manual: map<string, real>,
                        ratios: map<string, real>, shares: map<string, real>, i: nat)
    requires st == Ratio || st == Shares
    requires i < |selected| && WeightsDefined(st, selected, ratios, shares)
    ensures TotalWeight(selected, WeightsOf(st, ratios, shares)) != 0.0
    ensures CalculateSplits(total, st, selected, manual, ratios, shares)[i].amount
         == Parsed(WeightsOf(st, ratios, shares), selected[i])
            * (total / TotalWeight(selected, WeightsOf(st, ratios, shares)))
  {
    var w := WeightsOf(st, ratios, shares);
    ShareScale(Parsed(w, selected[i]), TotalWeight(selected, w), total);
  }

  lemma {:induction false} WeightedSplitTimesTotal(total: real, st: SplitType, selected: seq<string>,
                                                   manual: map<string, real>, ratios: map<string, real>,
                                                   shares: map<string, real>, i: nat)
    requires st == Ratio || st == Shares
    requires i < |selected| && WeightsDefined(st, selected, ratios, shares)
    ensures CalculateSplits(total, st, selected, manual, ratios, shares)[i].amount
              * TotalWeight(selected, WeightsOf(st, ratios, shares))
         == Parsed(WeightsOf(st, ratios, shares), selected[i]) * total
  {
    var w := WeightsOf(st, ratios, shares);
    var tw := TotalWeight(selected, w);
    WeightedSplitAt(total, st, selected, manual, ratios, shares, i);
    var a, c := Parsed(w, selected[i]), total / tw;
    ShareCross(a, tw, c);
    ShareTotal(tw, total);
    assert a * c * tw == a * (tw * c);
  }

  lemma {:induction false} WeightedSplitPair(total: real, st: SplitType, selected: seq<string>,
                                             manual: map<string, real>, ratios: map<string, real>,
                                             shares: map<string, real>, i: nat, j: nat)
    requires st == Ratio || st == Shares
    requires i < |selected| && j < |selected| && WeightsDefined(st, selected, ratios, shares)
    ensures var r := CalculateSplits(total, st, selected, manual, ratios, shares);
      var w := WeightsOf(st, ratios, shares);
      r[i].amount * Parsed(w, selected[j]) == r[j].amount * Parsed(w, selected[i])
  {
    var w := WeightsOf(st, ratios, shares);
    WeightedSplitAt(total, st, selected, manual, ratios, shares, i);
    WeightedSplitAt(total, st, selected, manual, ratios, shares, j);
    ShareCross(Parsed(w, selected[i]), Parsed(w, selected[j]), total / TotalWeight(selected, w));
  }

  /** In a ratio or shares split each amount times the weight total is the
      member's weight times the expense total, so amounts are proportional to
      the weights. */
  lemma WeightedSplitAmounts(total: real, st: SplitType, selected: seq<string>, manual: map<string, real>,
                             ratios: map<string, real>, shares: map<string, real>)
    requires st == Ratio || st == Shares
    requires WeightsDefined(st, selected, ratios, shares)
    ensures var r := CalculateSplits(total, st, selected, manual, ratios, shares);
      var w := WeightsOf(st, ratios, shares);
      (forall i :: 0 <= i < |r| ==> r[i].amount * TotalWeight(selected, w) == Parsed(w, selected[i]) * total) &&
      (forall i, j :: 0 <= i < |r| && 0 <= j < |r| ==>
         r[i].amount * Parsed(w, selected[j]) == r[j].amount * Parsed(w, selected[i]))
  {
    var r := CalculateSplits(total, st, selected, manual, ratios, shares);
    forall i | 0 <= i < |r| {
      WeightedSplitTimesTotal(total, st, selected, manual, ratios, shares, i);
    }
    forall i, j | 0 <= i < |r| && 0 <= j < |r| {
      WeightedSplitPair(total, st, selected, manual, ratios, shares, i, j);
    }
  }

  lemma WeightedSplitsScaled(total: real, st: SplitType, selected: seq<string>, manual: map<string, real>,
                             ratios: map<string, real>, shares: map<string, real>)
    requires st == Ratio || st == Shares
    requires |selected| > 0 && WeightsDefined(st, selected, ratios, shares)
    ensures var w := WeightsOf(st, ratios, shares);
      SumOf(CalculateSplits(total, st, selected, manual, ratios, shares), SplitAmount) ==
      SumOf(selected, ScaledWeightIn(w, total / TotalWeight(selected, w)))
  {
    var r := CalculateSplits(total, st, selected, manual, ratios, shares);
    var w := WeightsOf(st, ratios, shares);
    var scaled := ScaledWeightIn(w, total / TotalWeight(selected, w));
    forall i | 0 <= i < |r| ensures SplitAmount(r[i]) == scaled(selected[i]) {
      WeightedSplitAt(total, st, selected, manual, ratios, shares, i);
    }
    SumOfPointwise(r, selected, SplitAmount, scaled);
  }

  /** The amounts of a ratio or shares split add up to the total. */
  lemma WeightedSplitSums(total: real, st: SplitType, selected: seq<string>, manual: map<string, real>,
                          ratios: map<string, real>, shares: map<string, real>)
    requires st == Ratio || st == Shares
    requires |selected| > 0 && WeightsDefined(st, selected, ratios, shares)
    ensures SumOf(CalculateSplits(total, st, selected, manual, ratios, shares), SplitAmount) == total
  {
    WeightTotalNonZero(st, selected, ratios, shares);
    WeightedSplitsScaled(total, st, selected, manual, ratios, shares);
    ScaledWeightSum(selected, WeightsOf(st, ratios, shares), total);
  }

  lemma WeightTotalNonZero(st: SplitType, selected: seq<string>, ratios: map<string, real>, shares: map<string, real>)
    requires st == Ratio || st == Shares
    requires |selected| > 0 && WeightsDefined(st, selected, ratios, shares)
    ensures TotalWeight(selected, WeightsOf(st, ratios, shares)) != 0.0
  {
  }

  /** Scaling every weight by the total over the weight total gives weights
      that add up to the total. */
  lemma ScaledWeightSum(selected: seq<string>, w: map<string, real>, total: real)
    requires TotalWeight(selected, w) != 0.0
    ensures SumOf(selected, ScaledWeightIn(w, total / TotalWeight(selected, w))) == total
  {
    var tw := TotalWeight(selected, w);
    SumOfScale(selected, WeightIn(w), ScaledWeightIn(w, total / tw), total / tw);
    ShareTotal(tw, total);
  }

  /** A manual split adds up to whatever was typed; nothing ties it to the total. */
  lemma ManualSplitSums(total: real, selected: seq<string>, manual: map<string, real>,
                        ratios: map<string, real>, shares: map<string, real>)
    ensures SumOf(CalculateSplits(total, Manual, selected, manual, ratios, shares), SplitAmount)
         == TotalWeight(selected, manual)
  {
    var r := CalculateSplits(total, Manual, selected, manual, ratios, shares);
    SumOfPointwise(r, selected, SplitAmount, WeightIn(manual));
  }

  // ---------------------------------------------------------------- submit

  /** The form's fields at submit time. `amount` is None for an empty input;
      `payments` lists the multiple-payer inputs in entry order, each parsed
      (an unparsable entry reads 0). */
  datatype Draft = Draft(
    name: string,
    amount: Option<real>,
    date: int,
    category: string,
    paidBy: PaidBy,
    payments: seq<(Payer, real)>,
    splitType: SplitType,
    selected: seq<string>,
    manual: map<string, real>,
    ratios: map<string, real>,
    shares: map<string, real>)

  datatype SubmitOutcome =
    | Ignored                          // a required field is missing: nothing happens
    | PaymentMismatch(totalPaid: real) // the alert: the payments miss the amount
    | Saved(expense: Expense)          // `onAdd(expense)`

  function PaymentAmount(p: (Payer, real)): real
  {
    p.1
  }

  function Abs(x: real): real
  {
    if x < 0.0 then -x else x
  }

  /** The stored contributions: the payments with a positive amount, in order. */
  function Contributions(payments: seq<(Payer, real)>): (cs: seq<Contribution>)
    ensures |cs| <= |payments|
    ensures forall c :: c in cs <==> (c.payer, c.amount) in payments && c.amount > 0.0
  {
    if |payments| == 0 then []
    else
      (if payments[0].1 > 0.0 then [Contribution(payments[0].0, payments[0].1)] else [])
      + Contributions(payments[1..])
  }

  /** Dropping payments of 0 does not change the total paid. */
  lemma {:induction false} ContributionsSum(payments: seq<(Payer, real)>)
    requires forall i :: 0 <= i < |payments| ==> payments[i].1 >= 0.0
    ensures SumOf(Contributions(payments), ContributionAmount) == SumOf(payments, PaymentAmount)
  {
    if |payments| > 0 {
      var p := payments[0];
      ContributionsSum(payments[1..]);
      SumOfCons(p, payments[1..], PaymentAmount);
      assert payments == [p] + payments[1..];
      if p.1 > 0.0 {
        SumOfCons(Contribution(p.0, p.1), Contributions(payments[1..]), ContributionAmount);
      } else {
        assert Contributions(payments) == Contributions(payments[1..]);
      }
    }
  }

  /** The id an edited expense keeps (`existingExpense?.id || fresh`). */
  function ExpenseId(existingId: Option<string>, freshId: string): string
  {
    if existingId.Some? && existingId.value != "" then existingId.value else freshId
  }

  /** The draft passes both guards of `handleSubmit`, so the expense is built
      and its splits are calculated. */
  predicate PassesChecks(d: Draft)
  {
    Trim(d.name) != [] && d.amount.Some? && |d.selected| > 0 &&
    !(d.paidBy == ByMultiple && Abs(SumOf(d.payments, PaymentAmount) - d.amount.value) > 0.01)
  }

  /** `handleSubmit`. Nothing happens without a non-blank name, an amount and
      a selected member. With multiple payers, the parsed payments must add up
      to the amount within 0.01, else the total paid is reported. Otherwise
      the expense is built: the given id when editing (`freshId` stands for
      `Date.now()`), the trimmed name, the splits from `CalculateSplits`, and
      contributions only for multiple payers. */
  function Submit(d: Draft, existingId: Option<string>, freshId: string): (r: SubmitOutcome)
    requires PassesChecks(d) ==> WeightsDefined(d.splitType, d.selected, d.ratios, d.shares)
    ensures r.Saved? <==> PassesChecks(d)
    ensures r.Ignored? <==> Trim(d.name) == [] || d.amount.None? || |d.selected| == 0
    ensures r.PaymentMismatch? <==>
      !r.Ignored? && d.paidBy == ByMultiple && Abs(SumOf(d.payments, PaymentAmount) - d.amount.value) > 0.01
    ensures r.PaymentMismatch? ==> r.totalPaid == SumOf(d.payments, PaymentAmount)
    ensures r.Saved? ==>
      var e := r.expense;
      e.id == ExpenseId(existingId, freshId) &&
      e.name == Trim(d.name) && e.name != [] &&
      e.amount == d.amount.value && e.date == d.date && e.category == d.category &&
      e.paidBy == d.paidBy && e.splitType == d.splitType &&
      e.splits == CalculateSplits(d.amount.value, d.splitType, d.selected, d.manual, d.ratios, d.shares) &&
      |e.splits| > 0 &&
      PaymentShapeOk(e) &&
      (e.paidBy == ByMultiple ==> e.paidByMultiple.value == Contributions(d.payments))
  {
    if Trim(d.name) == [] || d.amount.None? || |d.selected| == 0 then Ignored
    else
      var amount := d.amount.value;
      var totalPaid := SumOf(d.payments, PaymentAmount);
      if d.paidBy == ByMultiple && Abs(totalPaid - amount) > 0.01 then PaymentMismatch(totalPaid)
      else
        Saved(Expense(
          ExpenseId(existingId, freshId),
          Trim(d.name),
          amount,
          d.date,
          d.category,
          d.paidBy,
          if d.paidBy == ByMultiple then Some(Contributions(d.payments)) else None,
          d.splitType,
          CalculateSplits(amount, d.splitType, d.selected, d.manual, d.ratios, d.shares)))
  }

  /** Payments exactly 0.01 away from the amount are accepted. */
  lemma SubmitToleranceInclusive(d: Draft, existingId: Option<string>, freshId: string)
    requires WeightsDefined(d.splitType, d.selected, d.ratios, d.shares)
    requires Trim(d.name) != [] && d.amount.Some? && |d.selected| > 0
    requires d.paidBy == ByMultiple && SumOf(d.payments, PaymentAmount) == d.amount.value + 0.01
    ensures Submit(d, existingId, freshId).Saved?
  {
  }

  /** When no payment is negative, the stored contributions add up to the
      total that passed the check, so they are within 0.01 of the amount. */
  lemma SavedContributionsMatch(d: Draft, existingId: Option<string>, freshId: string)
    requires WeightsDefined(d.splitType, d.selected, d.ratios, d.shares)
    requires Submit(d, existingId, freshId).Saved? && d.paidBy == ByMultiple
    requires forall i :: 0 <= i < |d.payments| ==> d.payments[i].1 >= 0.0
    ensures var stored := SumOf(Submit(d, existingId, freshId).expense.paidByMultiple.value, ContributionAmount);
      d.amount.value - 0.01 <= stored <= d.amount.value + 0.01
  {
    var r := Submit(d, existingId, freshId);
    assert !r.PaymentMismatch? && !r.Ignored?;
    ContributionsSum(d.payments);
  }

  /** A negative payment counts toward the check but is not stored: ten paid
      as 15 and -5 is accepted, and the stored contributions add up to 15. */
  lemma NegativePaymentDropped()
    ensures var d := Draft("Taxi", Some(10.0), 0, "General", ByMultiple,
                           [(MemberPayer("a"), 15.0), (MemberPayer("b"), -5.0)],
                           Equal, ["a", "b"], map[], map[], map[]);
      Submit(d, None, "1").Saved? &&
      Submit(d, None, "1").expense.paidByMultiple == Some([Contribution(MemberPayer("a"), 15.0)])
  {
    var d := Draft("Taxi", Some(10.0), 0, "General", ByMultiple,
                   [(MemberPayer("a"), 15.0), (MemberPayer("b"), -5.0)],
                   Equal, ["a", "b"], map[], map[], map[]);
    assert !IsWhitespace('T') && !IsWhitespace('i');
    assert TrimStart(d.name) == d.name;
    assert Trim(d.name) == d.name;
    assert SumOf(d.payments, PaymentAmount) == 10.0 by {
      SumOfCons(d.payments[0], d.payments[1..], PaymentAmount);
      SumOfCons(d.payments[1], [], PaymentAmount);
      assert d.payments == [d.payments[0]] + d.payments[1..];
      assert d.payments[1..] == [d.payments[1]] + [];
    }
    assert Contributions(d.payments[1..]) == [] by {
      assert d.payments[1..][1..] == [];
    }
    assert Contributions(d.payments) == [Contribution(MemberPayer("a"), 15.0)];
  }

  // ---------------------------------------------------------------- selection state

  /** The split ids of an expense being edited. */
  function SplitMemberIds(splits: seq<ExpenseSplit>): (ids: seq<string>)
    ensures |ids| == |splits| && forall i :: 0 <= i < |splits| ==> ids[i] == splits[i].memberId
  {
    seq(|splits|, i requires 0 <= i < |splits| => splits[i].memberId)
  }

  /** The form's `selectedMembers` state. */
  class MemberSelection {
    var selected: seq<string>

    /** Initially the members of the edited expense's splits, or every member
        of the group for a new expense. */
    constructor (members: seq<Member>, existing: Option<Expense>)
      ensures selected == if existing.Some? then SplitMemberIds(existing.value.splits) else MemberIds(members)
    {
      selected := if existing.Some? then SplitMemberIds(existing.value.splits) else MemberIds(members);
    }

    /** `toggleMember`: remove a selected id, append an unselected one. */
    method Toggle(id: string)
      modifies this
      ensures selected == Toggled(old(selected), id)
      ensures id in selected <==> id !in old(selected)
      ensures forall y :: y != id ==> (y in selected <==> y in old(selected))
      ensures Distinct(old(selected)) ==> Distinct(selected)
    {
      ToggledMembership(selected, id);
      if Distinct(selected) {
        ToggledDistinct(selected, id);
      }
      if id in selected {
        selected := Without(selected, id);
      } else {
        selected := selected + [id];
      }
    }

    /** `selectAll`. */
    method SelectAll(members: seq<Member>)
      modifies this
      ensures selected == MemberIds(members)
    {
      selected := MemberIds(members);
    }

    /** `selectNone`. */
    method SelectNone()
      modifies this
      ensures selected == []
    {
      selected := [];
    }
  }
}
