/** The legacy locker-consumption view (src/components/LockerConsumption.tsx):
    how much each person consumed from transactions paid from the cash
    locker. A transaction's `shares` is an object from person name to a
    signed amount; it is modelled as its entries in insertion order. */
module LockerConsumption {
  import opened Seqs
  import opened Buckets

  /** The fields of a Splitwise transaction that the view reads. */
  datatype Transaction = Transaction(paidFromLocker: bool, shares: seq<(string, real)>, cost: real, currency: string)

  datatype Person = Person(name: string)

  function Names(people: seq<Person>): (ns: seq<string>)
    ensures |ns| == |people|
    ensures forall i :: 0 <= i < |people| ==> ns[i] == people[i].name
  {
    seq(|people|, i requires 0 <= i < |people| => people[i].name)
  }

  /** `transactions[0]?.currency || 'VND'`. */
  function DisplayCurrency(ts: seq<Transaction>): (c: string)
    ensures c != ""
    ensures |ts| > 0 && ts[0].currency != "" ==> c == ts[0].currency
    ensures (|ts| == 0 || ts[0].currency == "") ==> c == "VND"
  {
    if |ts| > 0 && ts[0].currency != "" then ts[0].currency else "VND"
  }

  /** What one share adds to its person: the absolute value of a negative
      share (what they owe), the cost less a positive share (what they paid
      beyond their own part), and nothing for a zero share. */
  function ShareConsumption(cost: real, amount: real): (r: real)
    ensures amount < 0.0 ==> r == -amount && r > 0.0
    ensures amount > 0.0 ==> r + amount == cost
    ensures amount == 0.0 ==> r == 0.0
  {
    if amount < 0.0 then -amount else if amount > 0.0 then cost - amount else 0.0
  }

  /** The accumulator bumps made for the first shares of `t`: one per
      non-zero share; a zero share creates no entry. */
  function ShareEntries(t: Transaction, shares: seq<(string, real)>): (r: seq<(string, real)>)
    ensures |r| <= |shares|
  {
    if |shares| == 0 then []
    else
      var s := shares[|shares| - 1];
      ShareEntries(t, shares[..|shares| - 1]) +
      (if s.1 != 0.0 then [(s.0, ShareConsumption(t.cost, s.1))] else [])
  }

  /** The bumps made by the transactions, in order; transactions not paid
      from the locker make none. */
  function TransactionEntries(ts: seq<Transaction>): seq<(string, real)>
  {
    if |ts| == 0 then []
    else
      var t := ts[|ts| - 1];
      TransactionEntries(ts[..|ts| - 1]) + (if t.paidFromLocker then ShareEntries(t, t.shares) else [])
  }

  /** The initialisation: every person starts at 0. */
  function ZeroEntries(people: seq<Person>): (r: seq<(string, real)>)
    ensures |r| == |people|
    ensures forall i :: 0 <= i < |people| ==> r[i] == (people[i].name, 0.0)
  {
    seq(|people|, i requires 0 <= i < |people| => (people[i].name, 0.0))
  }

  /** The dictionary after initialisation and the fold, in key-insertion order. */
  function ConsumptionDictionary(ts: seq<Transaction>, people: seq<Person>): seq<(string, real)>
  {
    Accumulate(ZeroEntries(people) + TransactionEntries(ts))
  }

  /** The `consumption` memo: the dictionary's entries, largest amount first. */
  function Consumption(ts: seq<Transaction>, people: seq<Person>): seq<(string, real)>
  {
    SortDesc(ConsumptionDictionary(ts, people), Value)
  }

  /** `totalConsumption`. */
  function TotalConsumption(rows: seq<(string, real)>): real
  {
    SumOf(rows, Value)
  }

  /** The consumption of one transaction: the sum over its shares. */
  function ShareValue(t: Transaction): ((string, real)) -> real
  {
    (s: (string, real)) => ShareConsumption(t.cost, s.1)
  }

  function LockerTransactionConsumption(t: Transaction): real
  {
    if t.paidFromLocker then SumOf(t.shares, ShareValue(t)) else 0.0
  }

  // ---------------------------------------------------------------- the fold

  lemma ZeroEntriesStep(people: seq<Person>, i: nat)
    requires i < |people|
    ensures ZeroEntries(people[..i + 1]) == ZeroEntries(people[..i]) + [(people[i].name, 0.0)]
  {
    assert ZeroEntries(people[..i + 1]) == ZeroEntries(people[..i]) + [(people[i].name, 0.0)];
  }

  lemma ShareEntriesStep(t: Transaction, j: nat)
    requires j < |t.shares|
    ensures ShareEntries(t, t.shares[..j + 1]) == ShareEntries(t, t.shares[..j]) +
      (if t.shares[j].1 != 0.0 then [(t.shares[j].0, ShareConsumption(t.cost, t.shares[j].1))] else [])
  {
    assert t.shares[..j + 1][..j] == t.shares[..j];
  }

  lemma TransactionEntriesStep(ts: seq<Transaction>, i: nat)
    requires i < |ts|
    ensures TransactionEntries(ts[..i + 1]) == TransactionEntries(ts[..i]) +
      (if ts[i].paidFromLocker then ShareEntries(ts[i], ts[i].shares) else [])
  {
    assert ts[..i + 1][..i] == ts[..i];
  }

  /** The inner `forEach` over one locker transaction's shares. The ghost
      `done` is the list of bumps made so far. */
  method AddShares(acc: seq<(string, real)>, ghost base: seq<(string, real)>, t: Transaction)
    returns (r: seq<(string, real)>)
    requires acc == Accumulate(base)
    ensures r == Accumulate(base + ShareEntries(t, t.shares))
  {
    r := acc;
    ghost var done := base;
    assert base + ShareEntries(t, t.shares[..0]) == base;
    var j := 0;
    while j < |t.shares|
      invariant 0 <= j <= |t.shares|
      invariant done == base + ShareEntries(t, t.shares[..j])
      invariant r == Accumulate(done)
    {
      var person, amount := t.shares[j].0, t.shares[j].1;
      ShareEntriesStep(t, j);
      if amount < 0.0 {
        AccumulateSnoc(done, person, -amount);
        r := Add(r, person, -amount);
        done := done + [(person, -amount)];
      } else if amount > 0.0 {
        var theirShare := t.cost - amount;
        AccumulateSnoc(done, person, theirShare);
        r := Add(r, person, theirShare);
        done := done + [(person, theirShare)];
      }
      j := j + 1;
    }
    assert t.shares[..|t.shares|] == t.shares;
  }

  /** The `consumption` memo: initialise every person, fold the locker
      transactions' shares, then sort the entries by amount, largest first. */
  method ComputeConsumption(ts: seq<Transaction>, people: seq<Person>) returns (rows: seq<(string, real)>)
    ensures rows == Consumption(ts, people)
  {
    var acc := InitialConsumption(people);
    acc := FoldLockerTransactions(acc, ZeroEntries(people), ts);
    rows := SortDesc(acc, Value);
  }

  /** The initialisation loop: every person's entry set to 0, in order. */
  method InitialConsumption(people: seq<Person>) returns (acc: seq<(string, real)>)
    ensures acc == Accumulate(ZeroEntries(people))
  {
    acc := [];
    var i := 0;
    while i < |people|
      invariant 0 <= i <= |people|
      invariant acc == Accumulate(ZeroEntries(people[..i]))
    {
      ZeroEntriesStep(people, i);
      AccumulateSnoc(ZeroEntries(people[..i]), people[i].name, 0.0);
      acc := Add(acc, people[i].name, 0.0);
      i := i + 1;
    }
    assert people[..|people|] == people;
  }

  /** The outer `forEach` over the transactions, skipping those not paid
      from the locker. */
  method FoldLockerTransactions(acc: seq<(string, real)>, ghost base: seq<(string, real)>, ts: seq<Transaction>)
    returns (r: seq<(string, real)>)
    requires acc == Accumulate(base)
    ensures r == Accumulate(base + TransactionEntries(ts))
  {
    r := acc;
    assert base + TransactionEntries(ts[..0]) == base;
    var i := 0;
    while i < |ts|
      invariant 0 <= i <= |ts|
      invariant r == Accumulate(base + TransactionEntries(ts[..i]))
    {
      BaseTransactionStep(base, ts, i);
      if ts[i].paidFromLocker {
        r := AddShares(r, base + TransactionEntries(ts[..i]), ts[i]);
      }
      i := i + 1;
    }
    assert ts[..|ts|] == ts;
  }

  lemma BaseTransactionStep(base: seq<(string, real)>, ts: seq<Transaction>, i: nat)
    requires i < |ts|
    ensures ts[i].paidFromLocker ==>
      base + TransactionEntries(ts[..i + 1]) == base + TransactionEntries(ts[..i]) + ShareEntries(ts[i], ts[i].shares)
    ensures !ts[i].paidFromLocker ==>
      base + TransactionEntries(ts[..i + 1]) == base + TransactionEntries(ts[..i])
  {
    TransactionEntriesStep(ts, i);
    if !ts[i].paidFromLocker {
      assert TransactionEntries(ts[..i + 1]) == TransactionEntries(ts[..i]) + [];
    }
  }

  // ---------------------------------------------------------------- properties

  lemma {:induction false} SumForZeros(people: seq<Person>, k: string)
    ensures SumFor(ZeroEntries(people), k) == 0.0
  {
    if |people| > 0 {
      var n := |people| - 1;
      assert ZeroEntries(people)[..n] == ZeroEntries(people[..n]);
      SumForZeros(people[..n], k);
    }
  }

  lemma {:induction false} SumForAfterZeros(people: seq<Person>, pairs: seq<(string, real)>, k: string)
    ensures SumFor(ZeroEntries(people) + pairs, k) == SumFor(pairs, k)
  {
    if |pairs| == 0 {
      assert ZeroEntries(people) + pairs == ZeroEntries(people);
      SumForZeros(people, k);
    } else {
      var n := |pairs| - 1;
      assert (ZeroEntries(people) + pairs)[..|people| + n] == ZeroEntries(people) + pairs[..n];
      SumForAfterZeros(people, pairs[..n], k);
    }
  }

  lemma KeysOfAppend(a: seq<(string, real)>, b: seq<(string, real)>)
    ensures KeysOf(a + b) == KeysOf(a) + KeysOf(b)
  {
  }

  /** The dictionary has one entry per distinct key, the people first in
      their order; its keys are exactly the people's names and the names
      with a non-zero share in a locker transaction; each value is that
      name's consumption over the locker transactions (a person without
      any share keeps 0). */
  lemma DictionarySpec(ts: seq<Transaction>, people: seq<Person>)
    ensures var d := ConsumptionDictionary(ts, people);
      Distinct(KeysOf(d)) &&
      KeysOf(d) == Dedup(Names(people) + KeysOf(TransactionEntries(ts))) &&
      (forall i :: 0 <= i < |d| ==> d[i].1 == SumFor(TransactionEntries(ts), d[i].0))
  {
    var all := ZeroEntries(people) + TransactionEntries(ts);
    var d := Accumulate(all);
    AccumulateSpec(all);
    KeysOfAppend(ZeroEntries(people), TransactionEntries(ts));
    assert KeysOf(ZeroEntries(people)) == Names(people);
    forall i | 0 <= i < |d| ensures d[i].1 == SumFor(TransactionEntries(ts), d[i].0) {
      SumForAfterZeros(people, TransactionEntries(ts), d[i].0);
    }
  }

  /** The rows are the dictionary's entries, each once, sorted largest
      first, with rows of equal amount in dictionary order. */
  lemma ConsumptionSorted(ts: seq<Transaction>, people: seq<Person>, k: real)
    ensures var d := ConsumptionDictionary(ts, people);
      var rows := Consumption(ts, people);
      NonIncreasing(rows, Value) && multiset(rows) == multiset(d) &&
      WithKey(rows, Value, k) == WithKey(d, Value, k)
  {
    var d := ConsumptionDictionary(ts, people);
    SortDescSorted(d, Value);
    SortDescPermutation(d, Value);
    SortDescStable(d, Value, k);
  }

  /** The consumption of the share entries of one transaction is the sum of
      its share consumptions. */
  lemma {:induction false} ShareEntriesSum(t: Transaction, shares: seq<(string, real)>)
    ensures SumOf(ShareEntries(t, shares), Value) == SumOf(shares, ShareValue(t))
  {
    if |shares| > 0 {
      var n := |shares| - 1;
      var s := shares[n];
      ShareEntriesSum(t, shares[..n]);
      if s.1 != 0.0 {
        SumOfSnoc(ShareEntries(t, shares[..n]), (s.0, ShareConsumption(t.cost, s.1)), Value);
      } else {
        assert ShareEntries(t, shares) == ShareEntries(t, shares[..n]);
      }
    }
  }

  lemma {:induction false} TransactionEntriesSum(ts: seq<Transaction>)
    ensures SumOf(TransactionEntries(ts), Value) == SumOf(ts, LockerTransactionConsumption)
  {
    if |ts| > 0 {
      var n := |ts| - 1;
      TransactionEntriesSum(ts[..n]);
      SumOfAppend(TransactionEntries(ts[..n]),
        if ts[n].paidFromLocker then ShareEntries(ts[n], ts[n].shares) else [], Value);
      if ts[n].paidFromLocker {
        ShareEntriesSum(ts[n], ts[n].shares);
      }
    }
  }

  /** `totalConsumption` is the sum, over the transactions paid from the
      locker, of their share consumptions; the initial zeros add nothing. */
  lemma TotalConsumptionSpec(ts: seq<Transaction>, people: seq<Person>)
    ensures TotalConsumption(Consumption(ts, people)) == SumOf(ts, LockerTransactionConsumption)
  {
    var all := ZeroEntries(people) + TransactionEntries(ts);
    SortDescSum(Accumulate(all), Value, Value);
    AccumulateSum(all);
    SumOfAppend(ZeroEntries(people), TransactionEntries(ts), Value);
    SumOfConst(ZeroEntries(people), Value, 0.0);
    TransactionEntriesSum(ts);
  }

  /** A transaction not paid from the locker changes nothing. */
  lemma NonLockerIgnored(ts: seq<Transaction>, t: Transaction, people: seq<Person>)
    requires !t.paidFromLocker
    ensures Consumption(ts + [t], people) == Consumption(ts, people)
  {
    assert (ts + [t])[..|ts|] == ts;
    assert TransactionEntries(ts + [t]) == TransactionEntries(ts) + [];
    assert TransactionEntries(ts + [t]) == TransactionEntries(ts);
  }
}
