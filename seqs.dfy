/** Generic sequence folds shared by the whole model: left-to-right sums
    (`reduce((sum, x) => sum + f(x), 0)`), filters, the stable descending sort
    that `Array.prototype.sort` performs with a `(a, b) => key(b) - key(a)`
    comparator, and first-occurrence de-duplication (`Array.from(new Set(s))`). */
module Seqs {

  // ---------------------------------------------------------------- sums

  /** Left-to-right sum of `f` over `s`. */
  function SumOf<T>(s: seq<T>, f: T -> real): real
  {
    if |s| == 0 then 0.0 else SumOf(s[..|s| - 1], f) + f(s[|s| - 1])
  }

  lemma {:induction false} SumOfAppend<T>(a: seq<T>, b: seq<T>, f: T -> real)
    ensures SumOf(a + b, f) == SumOf(a, f) + SumOf(b, f)
  {
    if |b| == 0 {
      assert a + b == a;
    } else {
      var n := |b| - 1;
      assert (a + b)[..|a + b| - 1] == a + b[..n];
      SumOfAppend(a, b[..n], f);
    }
  }

  lemma SumOfCons<T>(x: T, s: seq<T>, f: T -> real)
    ensures SumOf([x] + s, f) == f(x) + SumOf(s, f)
  {
    SumOfAppend([x], s, f);
    assert [x][..0] == [];
  }

  lemma SumOfPrefix<T>(s: seq<T>, i: nat, f: T -> real)
    requires i < |s|
    ensures SumOf(s[..i + 1], f) == SumOf(s[..i], f) + f(s[i])
  {
    assert s[..i + 1][..i] == s[..i];
  }

  lemma SumOfSnoc<T>(s: seq<T>, x: T, f: T -> real)
    ensures SumOf(s + [x], f) == SumOf(s, f) + f(x)
  {
    assert (s + [x])[..|s|] == s;
  }

  /** Two sequences whose elements agree pointwise under `f` and `g` have equal sums. */
  lemma {:induction false} SumOfPointwise<A, B>(a: seq<A>, b: seq<B>, f: A -> real, g: B -> real)
    requires |a| == |b|
    requires forall i :: 0 <= i < |a| ==> f(a[i]) == g(b[i])
    ensures SumOf(a, f) == SumOf(b, g)
  {
    if |a| > 0 {
      SumOfPointwise(a[..|a| - 1], b[..|b| - 1], f, g);
    }
  }

  /** A sum whose terms are all scaled by `c` is the unscaled sum scaled by `c`. */
  lemma {:induction false} SumOfScale<T>(s: seq<T>, f: T -> real, g: T -> real, c: real)
    requires forall i :: 0 <= i < |s| ==> g(s[i]) == f(s[i]) * c
    ensures SumOf(s, g) == SumOf(s, f) * c
  {
    if |s| > 0 {
      SumOfScale(s[..|s| - 1], f, g, c);
    }
  }

  /** A sum of `|s|` equal terms `c`. */
  lemma {:induction false} SumOfConst<T>(s: seq<T>, f: T -> real, c: real)
    requires forall i :: 0 <= i < |s| ==> f(s[i]) == c
    ensures SumOf(s, f) == |s| as real * c
  {
    if |s| > 0 {
      SumOfConst(s[..|s| - 1], f, c);
    }
  }

  /** A sum of pointwise sums is the sum of the two sums. */
  lemma {:induction false} SumOfPlus<T>(s: seq<T>, f: T -> real, g: T -> real, h: T -> real)
    requires forall i :: 0 <= i < |s| ==> h(s[i]) == f(s[i]) + g(s[i])
    ensures SumOf(s, h) == SumOf(s, f) + SumOf(s, g)
  {
    if |s| > 0 {
      SumOfPlus(s[..|s| - 1], f, g, h);
    }
  }

  // ---------------------------------------------------------------- filters

  /** `s.filter(p)`: the elements satisfying `p`, in their original order. */
  function Filter<T(!new)>(s: seq<T>, p: T -> bool): (r: seq<T>)
    ensures |r| <= |s|
    ensures forall x :: x in r <==> x in s && p(x)
  {
    if |s| == 0 then [] else (if p(s[0]) then [s[0]] else []) + Filter(s[1..], p)
  }

  lemma {:induction false} FilterAll<T(!new)>(s: seq<T>, p: T -> bool)
    requires forall x :: x in s ==> p(x)
    ensures Filter(s, p) == s
  {
    if |s| > 0 {
      FilterAll(s[1..], p);
    }
  }

  /** Filters that agree on every element of `s` select the same elements. */
  lemma {:induction false} FilterEquiv<T(!new)>(s: seq<T>, p: T -> bool, q: T -> bool)
    requires forall i :: 0 <= i < |s| ==> p(s[i]) == q(s[i])
    ensures Filter(s, p) == Filter(s, q)
  {
    if |s| > 0 {
      FilterEquiv(s[1..], p, q);
    }
  }

  lemma {:induction false} FilterAppend<T(!new)>(a: seq<T>, b: seq<T>, p: T -> bool)
    ensures Filter(a + b, p) == Filter(a, p) + Filter(b, p)
  {
    if |a| > 0 {
      assert (a + b)[1..] == a[1..] + b;
      FilterAppend(a[1..], b, p);
    } else {
      assert a + b == b;
    }
  }

  /** A filter keeps the order of its input: an element appended to the
      input is appended to the output exactly when it passes. */
  lemma FilterSnoc<T(!new)>(s: seq<T>, x: T, p: T -> bool)
    ensures Filter(s + [x], p) == Filter(s, p) + (if p(x) then [x] else [])
  {
    FilterAppend(s, [x], p);
    assert [x][1..] == [];
  }

  /** Two filters applied one after the other commute. */
  lemma {:induction false} FilterCommute<T(!new)>(s: seq<T>, p: T -> bool, q: T -> bool)
    ensures Filter(Filter(s, p), q) == Filter(Filter(s, q), p)
  {
    if |s| > 0 {
      FilterCommute(s[1..], p, q);
      var hp: seq<T> := if p(s[0]) then [s[0]] else [];
      var hq: seq<T> := if q(s[0]) then [s[0]] else [];
      FilterAppend(hp, Filter(s[1..], p), q);
      FilterAppend(hq, Filter(s[1..], q), p);
      assert [s[0]][1..] == [];
    }
  }

  /** A filter that rejects only the one element `x` removes just it. */
  lemma FilterDropsOne<T(!new)>(before: seq<T>, x: T, after: seq<T>, p: T -> bool)
    requires forall y :: y in before ==> p(y)
    requires forall y :: y in after ==> p(y)
    requires !p(x)
    ensures Filter(before + [x] + after, p) == before + after
  {
    var tail := [x] + after;
    assert before + [x] + after == before + tail;
    assert Filter([x], p) == [] by {
      assert [x][1..] == [];
    }
    FilterAppend([x], after, p);
    FilterAll(after, p);
    assert Filter(tail, p) == after;
    FilterAppend(before, tail, p);
    FilterAll(before, p);
  }

  /** `s.map(x => key(x) === key(u) ? u : x)`: every element with the key of
      `u` becomes `u`, every other element stays in place, and no key changes. */
  function ReplaceByKey<T, K(==)>(s: seq<T>, key: T -> K, u: T): (r: seq<T>)
    ensures |r| == |s|
    ensures forall i :: 0 <= i < |s| ==> r[i] == (if key(s[i]) == key(u) then u else s[i])
    ensures forall i :: 0 <= i < |s| ==> key(r[i]) == key(s[i])
  {
    seq(|s|, i requires 0 <= i < |s| => if key(s[i]) == key(u) then u else s[i])
  }

  /** `s.filter(y => y !== x)`. */
  function Without<T(==,!new)>(s: seq<T>, x: T): (r: seq<T>)
    ensures x !in r
    ensures forall y :: y in r <==> y in s && y != x
  {
    Filter(s, y => y != x)
  }

  /** The toggle both `toggleMember` and `toggleGroupSelection` perform:
      remove every copy of a present `x`, or append an absent one. */
  function Toggled<T(==,!new)>(s: seq<T>, x: T): seq<T>
  {
    if x in s then Without(s, x) else s + [x]
  }

  lemma ToggledMembership<T(!new)>(s: seq<T>, x: T)
    ensures x in Toggled(s, x) <==> x !in s
    ensures forall y :: y != x ==> (y in Toggled(s, x) <==> y in s)
  {
  }

  /** Dropping the terms `p` rejects leaves the sum unchanged when every rejected term is 0. */
  lemma {:induction false} FilterSum<T(!new)>(s: seq<T>, p: T -> bool, f: T -> real)
    requires forall i :: 0 <= i < |s| && !p(s[i]) ==> f(s[i]) == 0.0
    ensures SumOf(Filter(s, p), f) == SumOf(s, f)
  {
    if |s| > 0 {
      FilterSum(s[1..], p, f);
      SumOfCons(s[0], s[1..], f);
      assert s == [s[0]] + s[1..];
      if p(s[0]) {
        SumOfCons(s[0], Filter(s[1..], p), f);
      } else {
        assert Filter(s, p) == Filter(s[1..], p);
      }
    }
  }

  /** Summing `f` over the elements that pass `p` is summing, over all
      elements, `f` where `p` holds and 0 elsewhere. */
  lemma {:induction false} SumOfFiltered<T(!new)>(s: seq<T>, p: T -> bool, f: T -> real, g: T -> real)
    requires forall i :: 0 <= i < |s| ==> g(s[i]) == (if p(s[i]) then f(s[i]) else 0.0)
    ensures SumOf(Filter(s, p), f) == SumOf(s, g)
  {
    if |s| > 0 {
      SumOfFiltered(s[1..], p, f, g);
      SumOfCons(s[0], s[1..], g);
      assert s == [s[0]] + s[1..];
      if p(s[0]) {
        SumOfCons(s[0], Filter(s[1..], p), f);
      } else {
        assert Filter(s, p) == Filter(s[1..], p);
      }
    }
  }

  lemma {:induction false} FilterDistinct<T(!new)>(s: seq<T>, p: T -> bool)
    requires Distinct(s)
    ensures Distinct(Filter(s, p))
  {
    if |s| > 0 {
      FilterDistinct(s[1..], p);
      assert s[0] !in s[1..];
      assert s[0] !in Filter(s[1..], p);
    }
  }

  /** Toggling keeps a duplicate-free selection duplicate-free. */
  lemma ToggledDistinct<T(!new)>(s: seq<T>, x: T)
    requires Distinct(s)
    ensures Distinct(Toggled(s, x))
  {
    if x in s {
      FilterDistinct(s, y => y != x);
    }
  }

  /** Toggling the same element twice restores membership. */
  lemma ToggledTwice<T(!new)>(s: seq<T>, x: T)
    ensures forall y :: y in Toggled(Toggled(s, x), x) <==> y in s
  {
    ToggledMembership(s, x);
    ToggledMembership(Toggled(s, x), x);
  }

  // ---------------------------------------------------------------- distinctness

  predicate Distinct<T(==)>(s: seq<T>)
  {
    forall i, j :: 0 <= i < j < |s| ==> s[i] != s[j]
  }

  /** Index of the first occurrence of `x` in `s`. */
  function FirstIndex<T(==)>(s: seq<T>, x: T): (i: nat)
    requires x in s
    ensures i < |s| && s[i] == x && x !in s[..i]
  {
    if s[0] == x then 0 else 1 + FirstIndex(s[1..], x)
  }

  lemma {:induction false} FirstIndexPrefix<T>(s: seq<T>, n: nat, x: T)
    requires n <= |s| && x in s[..n]
    ensures FirstIndex(s, x) == FirstIndex(s[..n], x)
  {
    if s[0] != x {
      assert s[..n][1..] == s[1..][..n - 1];
      FirstIndexPrefix(s[1..], n - 1, x);
    }
  }

  /** `Array.from(new Set(s))`: each element once, in first-occurrence order. */
  function Dedup<T(==,!new)>(s: seq<T>): (r: seq<T>)
    ensures forall x :: x in r <==> x in s
    ensures Distinct(r)
  {
    if |s| == 0 then []
    else
      var u := Dedup(s[..|s| - 1]);
      assert forall x :: x in s <==> x in s[..|s| - 1] || x == s[|s| - 1];
      if s[|s| - 1] in u then u else u + [s[|s| - 1]]
  }

  /** The de-duplicated sequence lists elements in the order of their first occurrence. */
  lemma {:induction false} DedupFirstOccurrenceOrder<T(!new)>(s: seq<T>)
    ensures forall i, j :: 0 <= i < j < |Dedup(s)| ==>
      FirstIndex(s, Dedup(s)[i]) < FirstIndex(s, Dedup(s)[j])
  {
    if |s| > 0 {
      var n := |s| - 1;
      var p := s[..n];
      var u := Dedup(p);
      DedupFirstOccurrenceOrder(p);
      forall y | y in u ensures FirstIndex(s, y) == FirstIndex(p, y) < n {
        FirstIndexPrefix(s, n, y);
      }
      OrderedInLonger(u, p, s);
      if s[n] !in u {
        assert s[n] !in p;
        assert FirstIndex(s, s[n]) == n;
        AppendLaterOrdered(u, s[n], s);
      }
    }
  }

  /** Elements ordered by first occurrence in a prefix stay so ordered in the whole. */
  lemma OrderedInLonger<T>(u: seq<T>, p: seq<T>, s: seq<T>)
    requires forall y :: y in u ==> y in p && y in s && FirstIndex(s, y) == FirstIndex(p, y)
    requires forall i, j :: 0 <= i < j < |u| ==> FirstIndex(p, u[i]) < FirstIndex(p, u[j])
    ensures forall i, j :: 0 <= i < j < |u| ==> FirstIndex(s, u[i]) < FirstIndex(s, u[j])
  {
    forall i, j | 0 <= i < j < |u| ensures FirstIndex(s, u[i]) < FirstIndex(s, u[j]) {
      assert u[i] in u && u[j] in u;
    }
  }

  /** Appending an element that first occurs after all the others keeps the order. */
  lemma AppendLaterOrdered<T>(u: seq<T>, x: T, s: seq<T>)
    requires x in s
    requires forall y :: y in u ==> y in s && FirstIndex(s, y) < FirstIndex(s, x)
    requires forall i, j :: 0 <= i < j < |u| ==> FirstIndex(s, u[i]) < FirstIndex(s, u[j])
    ensures forall i, j :: 0 <= i < j < |u + [x]| ==> FirstIndex(s, (u + [x])[i]) < FirstIndex(s, (u + [x])[j])
  {
    var r := u + [x];
    forall i, j | 0 <= i < j < |r| ensures FirstIndex(s, r[i]) < FirstIndex(s, r[j]) {
      assert r[i] == u[i] && r[i] in u;
      if j < |u| {
        assert r[j] == u[j];
      }
    }
  }

  // ---------------------------------------------------------------- stable sort

  predicate NonIncreasing<T>(s: seq<T>, key: T -> real)
  {
    forall i, j :: 0 <= i < j < |s| ==> key(s[j]) <= key(s[i])
  }

  /** Inserts `x` in front of the first element whose key does not exceed `x`'s:
      an earlier element goes before every later one of equal key. */
  function InsertDesc<T>(x: T, r: seq<T>, key: T -> real): (out: seq<T>)
    ensures |out| == |r| + 1
    ensures out[0] == x || (|r| > 0 && out[0] == r[0])
  {
    if |r| == 0 || key(r[0]) <= key(x) then [x] + r
    else [r[0]] + InsertDesc(x, r[1..], key)
  }

  /** The result of a stable sort with comparator `(a, b) => key(b) - key(a)`. */
  function SortDesc<T>(s: seq<T>, key: T -> real): (r: seq<T>)
    ensures |r| == |s|
  {
    if |s| == 0 then [] else InsertDesc(s[0], SortDesc(s[1..], key), key)
  }

  lemma {:induction false} InsertDescSorted<T>(x: T, r: seq<T>, key: T -> real)
    requires NonIncreasing(r, key)
    ensures NonIncreasing(InsertDesc(x, r, key), key)
  {
    if |r| > 0 && key(x) < key(r[0]) {
      InsertDescSorted(x, r[1..], key);
      var out := InsertDesc(x, r, key);
      var tail := InsertDesc(x, r[1..], key);
      assert out == [r[0]] + tail;
      forall i, j | 0 <= i < j < |out| ensures key(out[j]) <= key(out[i]) {
        if i == 0 {
          assert out[j] == tail[j - 1];
          InsertDescBounded(x, r[1..], key, key(r[0]));
        }
      }
    }
  }

  lemma {:induction false} InsertDescBounded<T>(x: T, r: seq<T>, key: T -> real, b: real)
    requires key(x) <= b
    requires forall k :: 0 <= k < |r| ==> key(r[k]) <= b
    ensures forall k :: 0 <= k < |InsertDesc(x, r, key)| ==> key(InsertDesc(x, r, key)[k]) <= b
  {
    if |r| > 0 && key(x) < key(r[0]) {
      InsertDescBounded(x, r[1..], key, b);
    }
  }

  lemma {:induction false} InsertDescElements<T>(x: T, r: seq<T>, key: T -> real)
    ensures forall y :: y in InsertDesc(x, r, key) <==> y == x || y in r
  {
    if |r| > 0 && key(x) < key(r[0]) {
      InsertDescElements(x, r[1..], key);
      assert r == [r[0]] + r[1..];
    }
  }

  /** The sorted sequence is ordered by non-increasing key. */
  lemma {:induction false} SortDescSorted<T>(s: seq<T>, key: T -> real)
    ensures NonIncreasing(SortDesc(s, key), key)
  {
    if |s| > 0 {
      SortDescSorted(s[1..], key);
      InsertDescSorted(s[0], SortDesc(s[1..], key), key);
    }
  }

  lemma {:induction false} InsertDescMultiset<T>(x: T, r: seq<T>, key: T -> real)
    ensures multiset(InsertDesc(x, r, key)) == multiset(r) + multiset{x}
  {
    if |r| > 0 && key(x) < key(r[0]) {
      InsertDescMultiset(x, r[1..], key);
      assert r == [r[0]] + r[1..];
    }
  }

  /** Sorting is a permutation. */
  lemma {:induction false} SortDescPermutation<T>(s: seq<T>, key: T -> real)
    ensures multiset(SortDesc(s, key)) == multiset(s)
  {
    if |s| > 0 {
      SortDescPermutation(s[1..], key);
      InsertDescMultiset(s[0], SortDesc(s[1..], key), key);
      assert s == [s[0]] + s[1..];
    }
  }

  /** The elements of `s` whose key equals `k`, in order. */
  function WithKey<T>(s: seq<T>, key: T -> real, k: real): seq<T>
  {
    if |s| == 0 then [] else (if key(s[0]) == k then [s[0]] else []) + WithKey(s[1..], key, k)
  }

  lemma WithKeyCons<T>(a: T, t: seq<T>, key: T -> real, k: real)
    ensures WithKey([a] + t, key, k) == (if key(a) == k then [a] else []) + WithKey(t, key, k)
  {
    assert ([a] + t)[1..] == t;
  }

  lemma {:induction false} InsertDescStable<T>(x: T, r: seq<T>, key: T -> real, k: real)
    ensures WithKey(InsertDesc(x, r, key), key, k) == WithKey([x] + r, key, k)
  {
    if |r| > 0 && key(x) < key(r[0]) {
      var tail := InsertDesc(x, r[1..], key);
      InsertDescStable(x, r[1..], key, k);
      assert InsertDesc(x, r, key) == [r[0]] + tail;
      assert r == [r[0]] + r[1..];
      WithKeyCons(r[0], tail, key, k);
      WithKeyCons(x, r[1..], key, k);
      WithKeyCons(r[0], r[1..], key, k);
      WithKeyCons(x, r, key, k);
      if key(x) == k {
        assert key(r[0]) != k;
      }
    }
  }

  /** Sorting is stable: elements of equal key keep their relative order. */
  lemma {:induction false} SortDescStable<T>(s: seq<T>, key: T -> real, k: real)
    ensures WithKey(SortDesc(s, key), key, k) == WithKey(s, key, k)
  {
    if |s| > 0 {
      SortDescStable(s[1..], key, k);
      InsertDescStable(s[0], SortDesc(s[1..], key), key, k);
      assert ([s[0]] + SortDesc(s[1..], key))[1..] == SortDesc(s[1..], key);
      assert s[1..] == ([s[0]] + s[1..])[1..];
    }
  }

  lemma {:induction false} InsertDescSum<T>(x: T, r: seq<T>, key: T -> real, f: T -> real)
    ensures SumOf(InsertDesc(x, r, key), f) == f(x) + SumOf(r, f)
  {
    if |r| > 0 && key(x) < key(r[0]) {
      InsertDescSum(x, r[1..], key, f);
      SumOfCons(r[0], InsertDesc(x, r[1..], key), f);
      SumOfCons(r[0], r[1..], f);
      assert r == [r[0]] + r[1..];
    } else {
      SumOfCons(x, r, f);
    }
  }

  /** Sorting does not change any sum over the elements. */
  lemma {:induction false} SortDescSum<T>(s: seq<T>, key: T -> real, f: T -> real)
    ensures SumOf(SortDesc(s, key), f) == SumOf(s, f)
  {
    if |s| > 0 {
      SortDescSum(s[1..], key, f);
      InsertDescSum(s[0], SortDesc(s[1..], key), key, f);
      SumOfCons(s[0], s[1..], f);
      assert s == [s[0]] + s[1..];
    }
  }

  /** A sorted sequence holds exactly the elements of the input. */
  lemma SortDescElements<T>(s: seq<T>, key: T -> real)
    ensures forall x :: x in SortDesc(s, key) <==> x in s
  {
    SortDescPermutation(s, key);
    forall x ensures x in SortDesc(s, key) <==> x in s {
      assert x in SortDesc(s, key) <==> x in multiset(SortDesc(s, key));
      assert x in s <==> x in multiset(s);
    }
  }
}
