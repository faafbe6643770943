/** A JavaScript `Map` or plain-object accumulator that is bumped as
    `acc[k] = (acc[k] || 0) + v`, modelled as an association list kept in
    key-insertion order (the order `Object.entries` and `Map.values` report). */
module Buckets {
  import opened Seqs

  /** The keys of an association list, in order. */
  function KeysOf<K, V>(acc: seq<(K, V)>): (ks: seq<K>)
    ensures |ks| == |acc|
    ensures forall i :: 0 <= i < |acc| ==> ks[i] == acc[i].0
  {
    if |acc| == 0 then [] else [acc[0].0] + KeysOf(acc[1..])
  }

  function Value<K>(p: (K, real)): real
  {
    p.1
  }

  /** `acc[k] || 0`: the value stored under `k`, or 0 when there is none. */
  function Get<K(==,!new)>(acc: seq<(K, real)>, k: K): real
  {
    if |acc| == 0 then 0.0 else if acc[0].0 == k then acc[0].1 else Get(acc[1..], k)
  }

  /** `acc[k] = (acc[k] || 0) + v`: an existing key is bumped in place, a new
      key is appended at the end. */
  function Add<K(==,!new)>(acc: seq<(K, real)>, k: K, v: real): seq<(K, real)>
  {
    if |acc| == 0 then [(k, v)]
    else if acc[0].0 == k then [(k, acc[0].1 + v)] + acc[1..]
    else [acc[0]] + Add(acc[1..], k, v)
  }

  lemma {:induction false} AddKeys<K(!new)>(acc: seq<(K, real)>, k: K, v: real)
    ensures KeysOf(Add(acc, k, v)) == if k in KeysOf(acc) then KeysOf(acc) else KeysOf(acc) + [k]
  {
    if |acc| > 0 && acc[0].0 != k {
      AddKeys(acc[1..], k, v);
      assert KeysOf(acc) == [acc[0].0] + KeysOf(acc[1..]);
    }
  }

  lemma {:induction false} AddGet<K(!new)>(acc: seq<(K, real)>, k: K, v: real)
    ensures Get(Add(acc, k, v), k) == Get(acc, k) + v
    ensures forall k' :: k' != k ==> Get(Add(acc, k, v), k') == Get(acc, k')
  {
    if |acc| > 0 && acc[0].0 != k {
      AddGet(acc[1..], k, v);
    }
  }

  lemma {:induction false} AddSum<K(!new)>(acc: seq<(K, real)>, k: K, v: real)
    ensures SumOf(Add(acc, k, v), Value) == SumOf(acc, Value) + v
  {
    if |acc| > 0 {
      SumOfCons(acc[0], acc[1..], Value);
      assert acc == [acc[0]] + acc[1..];
      if acc[0].0 == k {
        SumOfCons((k, acc[0].1 + v), acc[1..], Value);
      } else {
        AddSum(acc[1..], k, v);
        SumOfCons(acc[0], Add(acc[1..], k, v), Value);
      }
    }
  }

  /** The sum of the values paired with `k`. */
  function SumFor<K(==,!new)>(pairs: seq<(K, real)>, k: K): real
  {
    if |pairs| == 0 then 0.0
    else SumFor(pairs[..|pairs| - 1], k) + (if pairs[|pairs| - 1].0 == k then pairs[|pairs| - 1].1 else 0.0)
  }

  /** Bumping the accumulator once per pair, left to right, from an empty one. */
  function Accumulate<K(==,!new)>(pairs: seq<(K, real)>): seq<(K, real)>
  {
    if |pairs| == 0 then []
    else Add(Accumulate(pairs[..|pairs| - 1]), pairs[|pairs| - 1].0, pairs[|pairs| - 1].1)
  }

  /** One more pair is one more bump of the accumulator. */
  lemma AccumulateSnoc<K(!new)>(pairs: seq<(K, real)>, k: K, v: real)
    ensures Accumulate(pairs + [(k, v)]) == Add(Accumulate(pairs), k, v)
  {
    assert (pairs + [(k, v)])[..|pairs|] == pairs;
  }

  lemma AccumulateStep<K(!new)>(pairs: seq<(K, real)>, i: nat)
    requires i < |pairs|
    ensures Accumulate(pairs[..i + 1]) == Add(Accumulate(pairs[..i]), pairs[i].0, pairs[i].1)
    ensures SumFor(pairs[..i + 1], pairs[i].0) == SumFor(pairs[..i], pairs[i].0) + pairs[i].1
  {
    assert pairs[..i + 1][..i] == pairs[..i];
  }

  lemma {:induction false} GetAt<K(!new)>(acc: seq<(K, real)>, i: nat)
    requires Distinct(KeysOf(acc)) && i < |acc|
    ensures Get(acc, acc[i].0) == acc[i].1
  {
    if i > 0 {
      assert KeysOf(acc)[0] != KeysOf(acc)[i];
      assert KeysOf(acc[1..]) == KeysOf(acc)[1..];
      GetAt(acc[1..], i - 1);
    }
  }

  lemma {:induction false} GetAbsent<K(!new)>(acc: seq<(K, real)>, k: K)
    requires k !in KeysOf(acc)
    ensures Get(acc, k) == 0.0
  {
    if |acc| > 0 {
      assert KeysOf(acc[1..]) == KeysOf(acc)[1..];
      GetAbsent(acc[1..], k);
    }
  }

  lemma {:induction false} AccumulateKeys<K(!new)>(pairs: seq<(K, real)>)
    ensures KeysOf(Accumulate(pairs)) == Dedup(KeysOf(pairs))
  {
    if |pairs| > 0 {
      var n := |pairs| - 1;
      AccumulateKeys(pairs[..n]);
      AddKeys(Accumulate(pairs[..n]), pairs[n].0, pairs[n].1);
      assert KeysOf(pairs[..n]) == KeysOf(pairs)[..n];
    }
  }

  lemma {:induction false} AccumulateGet<K(!new)>(pairs: seq<(K, real)>, k: K)
    ensures Get(Accumulate(pairs), k) == SumFor(pairs, k)
  {
    if |pairs| > 0 {
      var n := |pairs| - 1;
      AccumulateGet(pairs[..n], k);
      AddGet(Accumulate(pairs[..n]), pairs[n].0, pairs[n].1);
    }
  }

  lemma {:induction false} AccumulateSum<K(!new)>(pairs: seq<(K, real)>)
    ensures SumOf(Accumulate(pairs), Value) == SumOf(pairs, Value)
  {
    if |pairs| > 0 {
      var n := |pairs| - 1;
      AccumulateSum(pairs[..n]);
      AddSum(Accumulate(pairs[..n]), pairs[n].0, pairs[n].1);
    }
  }

  /** What every accumulator of this kind in the source computes: one entry per
      distinct key, in first-occurrence order; each entry holds the sum of the
      values paired with its key; the entries sum to the sum of all values. */
  lemma AccumulateSpec<K(!new)>(pairs: seq<(K, real)>)
    ensures KeysOf(Accumulate(pairs)) == Dedup(KeysOf(pairs))
    ensures forall i :: 0 <= i < |Accumulate(pairs)| ==>
      Accumulate(pairs)[i].1 == SumFor(pairs, Accumulate(pairs)[i].0)
    ensures SumOf(Accumulate(pairs), Value) == SumOf(pairs, Value)
  {
    var r := Accumulate(pairs);
    AccumulateKeys(pairs);
    AccumulateSum(pairs);
    forall i | 0 <= i < |r| ensures r[i].1 == SumFor(pairs, r[i].0) {
      GetAt(r, i);
      AccumulateGet(pairs, r[i].0);
    }
  }
}
