/** The collection statistics panel (src/components/CollectionStats.tsx):
    totals, locker and personal spending bucketed by group currency, the
    display currency, the displayed totals in several currencies or
    converted to one, and the locker and personal share percentages. The
    locale rendering of numbers is the parameter `render`. */
module CollectionStatsView {
  import opened Types
  import opened Seqs
  import opened Buckets
  import opened Currencies
  import Aggregates

  // ---------------------------------------------------------------- display currency

  /** `Currency | 'multi'`. */
  datatype DisplayCurrency = Multi | In(currency: Currency)

  /** The initial display currency: the only currency when there is exactly
      one, several currencies otherwise. */
  function InitialDisplay(currencies: seq<Currency>): (d: DisplayCurrency)
    ensures d.In? <==> |currencies| == 1
    ensures d.In? ==> d.currency == currencies[0]
  {
    if |currencies| == 1 then In(currencies[0]) else Multi
  }

  function GroupCurrencies(gs: seq<Group>): (cs: seq<Currency>)
    ensures |cs| == |gs|
    ensures forall i :: 0 <= i < |gs| ==> cs[i] == gs[i].currency
  {
    seq(|gs|, i requires 0 <= i < |gs| => gs[i].currency)
  }

  /** The groups have exactly one currency among them when there is a group
      and all groups share the first one's currency. */
  lemma OneCurrency(gs: seq<Group>)
    ensures var currencies := UniqueCurrencies(GroupCurrencies(gs));
      (|currencies| == 1 <==> |gs| > 0 && forall g :: g in gs ==> g.currency == gs[0].currency) &&
      (|currencies| == 1 ==> currencies[0] == gs[0].currency)
  {
    var cs := GroupCurrencies(gs);
    var currencies := UniqueCurrencies(cs);
    if |gs| > 0 && forall g :: g in gs ==> g.currency == gs[0].currency {
      assert cs[0] in currencies;
      forall x | x in currencies ensures x == cs[0] {
        var k :| 0 <= k < |cs| && cs[k] == x;
        assert gs[k] in gs;
      }
      assert currencies[0] == cs[0] && currencies[|currencies| - 1] == cs[0];
    }
    if |currencies| == 1 {
      assert cs[0] in currencies;
      forall g | g in gs ensures g.currency == gs[0].currency {
        var k :| 0 <= k < |gs| && gs[k] == g;
        assert cs[k] in currencies;
      }
    }
  }

  // ---------------------------------------------------------------- buckets by currency

  datatype CurrencyTotals = CurrencyTotals(total: real, locker: real, personal: real)

  function IsLockerPaid(e: Expense): bool
  {
    e.paidBy == ByLocker
  }

  /** `groupLocker`: the amounts of the expenses paid from the locker; the
      locker contributions of multiple-payer expenses are not counted. */
  function GroupLocker(g: Group): real
  {
    SumOf(Filter(g.expenses, IsLockerPaid), ExpenseAmount)
  }

  /** `acc[currency]`, created at zero when absent, then bumped by the
      group's total, locker spending and their difference. */
  function Bump(acc: seq<(Currency, CurrencyTotals)>, c: Currency, total: real, locker: real)
    : seq<(Currency, CurrencyTotals)>
  {
    if |acc| == 0 then [(c, CurrencyTotals(0.0 + total, 0.0 + locker, 0.0 + (total - locker)))]
    else if acc[0].0 == c then
      var t := acc[0].1;
      [(c, CurrencyTotals(t.total + total, t.locker + locker, t.personal + (total - locker)))] + acc[1..]
    else [acc[0]] + Bump(acc[1..], c, total, locker)
  }

  /** The `totalsByCurrency` reduce over the groups. */
  function TotalsByCurrency(gs: seq<Group>): seq<(Currency, CurrencyTotals)>
  {
    if |gs| == 0 then []
    else
      var g := gs[|gs| - 1];
      Bump(TotalsByCurrency(gs[..|gs| - 1]), g.currency, Aggregates.GroupTotal(g), GroupLocker(g))
  }

  lemma TotalsByCurrencyStep(gs: seq<Group>, i: nat)
    requires i < |gs|
    ensures TotalsByCurrency(gs[..i + 1]) ==
      Bump(TotalsByCurrency(gs[..i]), gs[i].currency, Aggregates.GroupTotal(gs[i]), GroupLocker(gs[i]))
  {
    assert gs[..i + 1][..i] == gs[..i];
  }

  /** The reduce, bumping the accumulator group by group. */
  method ComputeTotalsByCurrency(gs: seq<Group>) returns (acc: seq<(Currency, CurrencyTotals)>)
    ensures acc == TotalsByCurrency(gs)
  {
    acc := [];
    var i := 0;
    while i < |gs|
      invariant 0 <= i <= |gs|
      invariant acc == TotalsByCurrency(gs[..i])
    {
      TotalsByCurrencyStep(gs, i);
      var g := gs[i];
      var groupTotal := SumOf(g.expenses, ExpenseAmount);
      var groupLocker := SumOf(Filter(g.expenses, IsLockerPaid), ExpenseAmount);
      acc := Bump(acc, g.currency, groupTotal, groupLocker);
      i := i + 1;
    }
    assert gs[..|gs|] == gs;
  }

  /** Which of the three figures `getDisplayTotal` shows. */
  datatype Field = TotalField | LockerField | PersonalField

  function FieldOf(t: CurrencyTotals, f: Field): real
  {
    match f
    case TotalField => t.total
    case LockerField => t.locker
    case PersonalField => t.personal
  }

  /** One figure of every bucket, as a currency-to-amount accumulator. */
  function Project(acc: seq<(Currency, CurrencyTotals)>, f: Field): (ps: seq<(Currency, real)>)
    ensures |ps| == |acc|
    ensures forall i :: 0 <= i < |acc| ==> ps[i] == (acc[i].0, FieldOf(acc[i].1, f))
  {
    seq(|acc|, i requires 0 <= i < |acc| => (acc[i].0, FieldOf(acc[i].1, f)))
  }

  /** The amount a group adds to a figure. */
  function GroupFigure(g: Group, f: Field): real
  {
    match f
    case TotalField => Aggregates.GroupTotal(g)
    case LockerField => GroupLocker(g)
    case PersonalField => Aggregates.GroupTotal(g) - GroupLocker(g)
  }

  /** Each group's currency with the amount it adds to a figure. */
  function FigurePairs(gs: seq<Group>, f: Field): (ps: seq<(Currency, real)>)
    ensures |ps| == |gs|
    ensures forall i :: 0 <= i < |gs| ==> ps[i] == (gs[i].currency, GroupFigure(gs[i], f))
  {
    seq(|gs|, i requires 0 <= i < |gs| => (gs[i].currency, GroupFigure(gs[i], f)))
  }

  function FigureOf(f: Field): Group -> real
  {
    (g: Group) => GroupFigure(g, f)
  }

  /** The amount a bump by `total` and `locker` adds to a figure. */
  function BumpFigure(total: real, locker: real, f: Field): real
  {
    match f
    case TotalField => total
    case LockerField => locker
    case PersonalField => total - locker
  }

  /** A bump, seen through one figure, is a plain accumulator bump. */
  lemma ProjectBump(acc: seq<(Currency, CurrencyTotals)>, g: Group, f: Field)
    ensures Project(Bump(acc, g.currency, Aggregates.GroupTotal(g), GroupLocker(g)), f) ==
      Add(Project(acc, f), g.currency, GroupFigure(g, f))
  {
    var total, locker := Aggregates.GroupTotal(g), GroupLocker(g);
    assert GroupFigure(g, f) == BumpFigure(total, locker, f);
    ProjectBumpBy(acc, g.currency, total, locker, f);
  }

  lemma {:induction false} ProjectBumpBy(acc: seq<(Currency, CurrencyTotals)>, c: Currency, total: real, locker: real, f: Field)
    ensures Project(Bump(acc, c, total, locker), f) == Add(Project(acc, f), c, BumpFigure(total, locker, f))
  {
    if |acc| == 0 {
      assert Project(Bump(acc, c, total, locker), f) == [(c, BumpFigure(total, locker, f))];
    } else if acc[0].0 == c {
      ProjectBumpHead(acc, c, total, locker, f);
    } else {
      ProjectBumpBy(acc[1..], c, total, locker, f);
      ProjectBumpTail(acc, c, total, locker, f);
    }
  }

  lemma ProjectBumpHead(acc: seq<(Currency, CurrencyTotals)>, c: Currency, total: real, locker: real, f: Field)
    requires |acc| > 0 && acc[0].0 == c
    ensures Project(Bump(acc, c, total, locker), f) == Add(Project(acc, f), c, BumpFigure(total, locker, f))
  {
    var b := Bump(acc, c, total, locker);
    var ps := Project(acc, f);
    assert FieldOf(b[0].1, f) == FieldOf(acc[0].1, f) + BumpFigure(total, locker, f);
    assert Project(b, f) == [(c, ps[0].1 + BumpFigure(total, locker, f))] + ps[1..];
  }

  lemma ProjectBumpTail(acc: seq<(Currency, CurrencyTotals)>, c: Currency, total: real, locker: real, f: Field)
    requires |acc| > 0 && acc[0].0 != c
    requires Project(Bump(acc[1..], c, total, locker), f) == Add(Project(acc[1..], f), c, BumpFigure(total, locker, f))
    ensures Project(Bump(acc, c, total, locker), f) == Add(Project(acc, f), c, BumpFigure(total, locker, f))
  {
    assert Project(acc, f) == [Project(acc, f)[0]] + Project(acc[1..], f);
    assert Bump(acc, c, total, locker) == [acc[0]] + Bump(acc[1..], c, total, locker);
  }

  /** Each figure of the buckets is the currency accumulator of the groups'
      figures. */
  lemma {:induction false} TotalsProjection(gs: seq<Group>, f: Field)
    ensures Project(TotalsByCurrency(gs), f) == Accumulate(FigurePairs(gs, f))
  {
    if |gs| > 0 {
      var n := |gs| - 1;
      TotalsProjection(gs[..n], f);
      assert FigurePairs(gs, f)[..n] == FigurePairs(gs[..n], f);
      ProjectBump(TotalsByCurrency(gs[..n]), gs[n], f);
    }
  }

  predicate Balanced(t: CurrencyTotals)
  {
    t.personal == t.total - t.locker
  }

  predicate AllBalanced(acc: seq<(Currency, CurrencyTotals)>)
  {
    forall i :: 0 <= i < |acc| ==> Balanced(acc[i].1)
  }

  /** Every bump keeps `personal == total - locker` in every bucket. */
  lemma {:induction false} BumpBalanced(acc: seq<(Currency, CurrencyTotals)>, c: Currency, total: real, locker: real)
    requires AllBalanced(acc)
    ensures AllBalanced(Bump(acc, c, total, locker))
  {
    if |acc| > 0 && acc[0].0 != c {
      BumpBalanced(acc[1..], c, total, locker);
      var r := Bump(acc, c, total, locker);
      assert r == [acc[0]] + Bump(acc[1..], c, total, locker);
      forall i | 0 <= i < |r| ensures Balanced(r[i].1) {
        if i > 0 {
          assert r[i] == Bump(acc[1..], c, total, locker)[i - 1];
        }
      }
    } else if |acc| > 0 {
      assert Balanced(acc[0].1);
    }
  }

  lemma {:induction false} TotalsBalanced(gs: seq<Group>)
    ensures AllBalanced(TotalsByCurrency(gs))
  {
    if |gs| > 0 {
      var n := |gs| - 1;
      TotalsBalanced(gs[..n]);
      BumpBalanced(TotalsByCurrency(gs[..n]), gs[n].currency, Aggregates.GroupTotal(gs[n]), GroupLocker(gs[n]));
    }
  }

  /** One bucket per currency of the groups, in first-occurrence order; each
      figure of a bucket is the sum of that figure over the groups in its
      currency; personal spending is total less locker in every bucket; and
      each figure summed over the buckets is its sum over the groups. */
  lemma TotalsByCurrencySpec(gs: seq<Group>, f: Field)
    ensures var r := TotalsByCurrency(gs);
      KeysOf(r) == UniqueCurrencies(GroupCurrencies(gs)) &&
      (forall i :: 0 <= i < |r| ==> FieldOf(r[i].1, f) == SumFor(FigurePairs(gs, f), r[i].0)) &&
      AllBalanced(r) &&
      SumOf(Project(r, f), Value) == SumOf(gs, FigureOf(f))
  {
    var r := TotalsByCurrency(gs);
    var ps := FigurePairs(gs, f);
    TotalsProjection(gs, f);
    AccumulateSpec(ps);
    assert KeysOf(Project(r, f)) == KeysOf(r);
    assert KeysOf(ps) == GroupCurrencies(gs);
    forall i | 0 <= i < |r| ensures FieldOf(r[i].1, f) == SumFor(ps, r[i].0) {
      assert Project(r, f)[i] == (r[i].0, FieldOf(r[i].1, f));
    }
    TotalsBalanced(gs);
    SumOfPointwise(ps, gs, Value, FigureOf(f));
  }

  // ---------------------------------------------------------------- agreement with the collection statistics

  function GroupSum(f: Expense -> real): Group -> real
  {
    (g: Group) => SumOf(g.expenses, f)
  }

  /** Summing over the visit of all expenses is summing group by group. */
  lemma {:induction false} AllExpensesSum(gs: seq<Group>, f: Expense -> real)
    ensures SumOf(Aggregates.AllExpenses(gs), f) == SumOf(gs, GroupSum(f))
  {
    if |gs| > 0 {
      var n := |gs| - 1;
      AllExpensesSum(gs[..n], f);
      SumOfAppend(Aggregates.AllExpenses(gs[..n]), gs[n].expenses, f);
    }
  }

  /** Over the collection's groups, the bucket totals add up to the
      statistics' total expenses. */
  lemma BucketTotalsMatchStats(c: Collection, groups: seq<Group>)
    ensures var gs := Aggregates.IncludedGroups(c, groups);
      SumOf(Project(TotalsByCurrency(gs), TotalField), Value) == Aggregates.StatsOf(c, groups).totalExpenses
  {
    var gs := Aggregates.IncludedGroups(c, groups);
    TotalsByCurrencySpec(gs, TotalField);
    Aggregates.AllExpensesSums(gs);
    SumOfPointwise(gs, gs, FigureOf(TotalField), Aggregates.GroupTotal);
  }

  function LockerPaidAmount(e: Expense): real
  {
    if e.paidBy == ByLocker then e.amount else 0.0
  }

  lemma GroupLockerSum(g: Group)
    ensures GroupLocker(g) == SumOf(g.expenses, LockerPaidAmount)
  {
    var kept := Filter(g.expenses, IsLockerPaid);
    FilterSum(g.expenses, IsLockerPaid, LockerPaidAmount);
    forall i | 0 <= i < |kept| ensures ExpenseAmount(kept[i]) == LockerPaidAmount(kept[i]) {
      assert kept[i] in kept;
    }
    SumOfPointwise(kept, kept, ExpenseAmount, LockerPaidAmount);
  }

  /** No multiple-payer expense draws on the locker. */
  predicate NoSharedLockerPayments(es: seq<Expense>)
  {
    forall i :: 0 <= i < |es| ==> Aggregates.LockerSpend(es[i]) == LockerPaidAmount(es[i])
  }

  lemma LockerBucketsSum(gs: seq<Group>)
    requires NoSharedLockerPayments(Aggregates.AllExpenses(gs))
    ensures SumOf(Project(TotalsByCurrency(gs), LockerField), Value) ==
      SumOf(Aggregates.AllExpenses(gs), Aggregates.LockerSpend)
  {
    var es := Aggregates.AllExpenses(gs);
    TotalsByCurrencySpec(gs, LockerField);
    forall i | 0 <= i < |gs| ensures FigureOf(LockerField)(gs[i]) == GroupSum(LockerPaidAmount)(gs[i]) {
      GroupLockerSum(gs[i]);
    }
    SumOfPointwise(gs, gs, FigureOf(LockerField), GroupSum(LockerPaidAmount));
    AllExpensesSum(gs, LockerPaidAmount);
    SumOfPointwise(es, es, LockerPaidAmount, Aggregates.LockerSpend);
  }

  /** When no multiple-payer expense has a locker contribution, the bucket
      locker figures add up to the statistics' locker spending. */
  lemma BucketLockerMatchesStats(c: Collection, groups: seq<Group>)
    requires NoSharedLockerPayments(Aggregates.AllExpenses(Aggregates.IncludedGroups(c, groups)))
    ensures var gs := Aggregates.IncludedGroups(c, groups);
      SumOf(Project(TotalsByCurrency(gs), LockerField), Value) == Aggregates.StatsOf(c, groups).totalLockerSpending
  {
    LockerBucketsSum(Aggregates.IncludedGroups(c, groups));
  }

  /** A multiple-payer expense paid partly from the locker counts as locker
      spending in the statistics but not in the currency buckets. */
  lemma SharedLockerPaymentIgnored(g: Group, e: Expense)
    requires g.expenses == [e]
    requires e.paidBy == ByMultiple && e.paidByMultiple == Some([Contribution(LockerPayer, 5.0)])
    ensures GroupLocker(g) == 0.0
    ensures SumOf(g.expenses, Aggregates.LockerSpend) == 5.0
  {
    GroupLockerSum(g);
    SumOfCons(e, [], LockerPaidAmount);
    SumOfCons(e, [], Aggregates.LockerSpend);
    SumOfCons(Contribution(LockerPayer, 5.0), [], Aggregates.LockerPart);
  }

  // ---------------------------------------------------------------- displayed totals

  /** `parts.join(sep)`. */
  function Join(parts: seq<string>, sep: string): (s: string)
    ensures |parts| == 1 ==> s == parts[0]
    ensures |parts| == 0 ==> s == ""
  {
    if |parts| == 0 then ""
    else if |parts| == 1 then parts[0]
    else parts[0] + sep + Join(parts[1..], sep)
  }

  function Formatted(ps: seq<(Currency, real)>, render: (real, bool) -> string): (parts: seq<string>)
    ensures |parts| == |ps|
    ensures forall i :: 0 <= i < |ps| ==> parts[i] == FormatCurrency(ps[i].1, ps[i].0, render)
  {
    seq(|ps|, i requires 0 <= i < |ps| => FormatCurrency(ps[i].1, ps[i].0, render))
  }

  function ConvertedTo(d: Currency): ((Currency, real)) -> real
  {
    (p: (Currency, real)) => Convert(p.1, p.0, d)
  }

  /** The display of per-currency amounts: every amount in its own currency,
      joined by " + ", or the sum of the amounts converted to one currency. */
  function DisplayAmounts(ps: seq<(Currency, real)>, d: DisplayCurrency, render: (real, bool) -> string): string
  {
    match d
    case Multi => Join(Formatted(ps, render), " + ")
    case In(c) => FormatCurrency(SumOf(ps, ConvertedTo(c)), c, render)
  }

  /** `getDisplayTotal(type)`. */
  function DisplayTotal(acc: seq<(Currency, CurrencyTotals)>, f: Field, d: DisplayCurrency,
                        render: (real, bool) -> string): string
  {
    DisplayAmounts(Project(acc, f), d, render)
  }

  /** When every amount is already in the display currency, the converted
      display is the plain sum. */
  lemma DisplayInOwnCurrency(ps: seq<(Currency, real)>, c: Currency, render: (real, bool) -> string)
    requires forall i :: 0 <= i < |ps| ==> ps[i].0 == c
    ensures DisplayAmounts(ps, In(c), render) == FormatCurrency(SumOf(ps, Value), c, render)
  {
    SumOfPointwise(ps, ps, ConvertedTo(c), Value);
  }

  /** Converting each amount moves the converted sum by at most half a cent
      per amount from the exact rate-table value. */
  function ExactIn(d: Currency): ((Currency, real)) -> real
  {
    (p: (Currency, real)) => if p.0 == d then p.1 else p.1 / Rate(p.0) * Rate(d)
  }

  lemma {:induction false} ConvertedSumError(ps: seq<(Currency, real)>, d: Currency)
    ensures SumOf(ps, ExactIn(d)) - 0.005 * |ps| as real <= SumOf(ps, ConvertedTo(d))
    ensures SumOf(ps, ConvertedTo(d)) <= SumOf(ps, ExactIn(d)) + 0.005 * |ps| as real
  {
    if |ps| > 0 {
      var n := |ps| - 1;
      ConvertedSumError(ps[..n], d);
      ConvertedItemError(ps[n], d);
      assert SumOf(ps, ConvertedTo(d)) == SumOf(ps[..n], ConvertedTo(d)) + ConvertedTo(d)(ps[n]);
      assert SumOf(ps, ExactIn(d)) == SumOf(ps[..n], ExactIn(d)) + ExactIn(d)(ps[n]);
    }
  }

  lemma ConvertedItemError(p: (Currency, real), d: Currency)
    ensures ExactIn(d)(p) - 0.005 <= ConvertedTo(d)(p) <= ExactIn(d)(p) + 0.005
  {
    if p.0 != d {
      ConvertError(p.1, p.0, d);
    }
  }

  /** A view of groups in one currency starts in that currency and shows the
      plain sum of each figure; with several currencies it starts showing
      each bucket in its own currency. */
  lemma InitialDisplayTotal(gs: seq<Group>, f: Field, render: (real, bool) -> string)
    ensures var currencies := UniqueCurrencies(GroupCurrencies(gs));
      var r := TotalsByCurrency(gs);
      (|currencies| == 1 ==>
         DisplayTotal(r, f, InitialDisplay(currencies), render) ==
         FormatCurrency(SumOf(gs, FigureOf(f)), currencies[0], render)) &&
      (|currencies| != 1 ==>
         DisplayTotal(r, f, InitialDisplay(currencies), render) ==
         Join(Formatted(Project(r, f), render), " + "))
  {
    var currencies := UniqueCurrencies(GroupCurrencies(gs));
    var r := TotalsByCurrency(gs);
    TotalsByCurrencySpec(gs, f);
    if |currencies| == 1 {
      forall i | 0 <= i < |Project(r, f)| ensures Project(r, f)[i].0 == currencies[0] {
        assert KeysOf(r)[i] == r[i].0;
        assert r[i].0 in currencies;
      }
      DisplayInOwnCurrency(Project(r, f), currencies[0], render);
    }
  }

  // ---------------------------------------------------------------- share percentages

  lemma ComplementShares(t: real, l: real, p: real)
    requires p == t - l
    ensures t > 0.0 ==> Aggregates.Percentage(l, t) + Aggregates.Percentage(p, t) == 100.0
    ensures t <= 0.0 ==> Aggregates.Percentage(l, t) == 0.0 && Aggregates.Percentage(p, t) == 0.0
  {
    if t > 0.0 {
      assert l / t * 100.0 + (t - l) / t * 100.0 == (l + (t - l)) / t * 100.0;
    }
  }

  /** The locker and personal shares under the totals: they add up to 100
      when there is spending, and both read 0 when there is none. */
  lemma SpendingShares(c: Collection, groups: seq<Group>)
    ensures var s := Aggregates.StatsOf(c, groups);
      var lockerShare := Aggregates.Percentage(s.totalLockerSpending, s.totalExpenses);
      var personalShare := Aggregates.Percentage(s.totalPersonalSpending, s.totalExpenses);
      (s.totalExpenses > 0.0 ==> lockerShare + personalShare == 100.0) &&
      (s.totalExpenses <= 0.0 ==> lockerShare == 0.0 && personalShare == 0.0)
  {
    var s := Aggregates.StatsOf(c, groups);
    ComplementShares(s.totalExpenses, s.totalLockerSpending, s.totalPersonalSpending);
  }
}
