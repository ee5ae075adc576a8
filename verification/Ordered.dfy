/** Ordered iteration over finite maps and sets, as `BTreeMap` and `sort_by` provide it,
    and sums over finite maps. */
module Ordered {
  ghost predicate StrictTotal<K(!new)>(less: (K, K) -> bool) {
    && (forall a, b :: less(a, b) ==> !less(b, a))
    && (forall a, b :: a != b ==> less(a, b) || less(b, a))
    && (forall a, b, c :: less(a, b) && less(b, c) ==> less(a, c))
  }

  predicate IsLeast<K(==)>(k: K, keys: set<K>, less: (K, K) -> bool) {
    k in keys && forall j | j in keys && j != k :: less(k, j)
  }

  lemma {:induction false} LeastExists<K(!new)>(keys: set<K>, less: (K, K) -> bool)
    requires keys != {} && StrictTotal(less)
    ensures exists k :: IsLeast(k, keys, less)
    decreases |keys|
  {
    var any :| any in keys;
    var rest := keys - {any};
    if rest == {} {
      assert keys == {any};
      assert IsLeast(any, keys, less);
    } else {
      LeastExists(rest, less);
      var least :| IsLeast(least, rest, less);
      assert IsLeast(if less(any, least) then any else least, keys, less);
    }
  }

  /** The keys in increasing order. */
  function SortedKeys<K(==, !new)>(keys: set<K>, less: (K, K) -> bool): (r: seq<K>)
    requires StrictTotal(less)
    ensures forall k :: k in r <==> k in keys
    decreases |keys|
  {
    if keys == {} then []
    else
      LeastExists(keys, less);
      var k :| k in keys && IsLeast(k, keys, less);
      [k] + SortedKeys(keys - {k}, less)
  }

  ghost predicate Increasing<K>(s: seq<K>, less: (K, K) -> bool) {
    forall i, j :: 0 <= i < j < |s| ==> less(s[i], s[j])
  }

  lemma ConsIncreasing<K>(k: K, rest: seq<K>, less: (K, K) -> bool)
    requires Increasing(rest, less)
    requires forall j | j in rest :: less(k, j)
    ensures Increasing([k] + rest, less)
  {
    var r := [k] + rest;
    forall i, j | 0 <= i < j < |r| ensures less(r[i], r[j]) {
      assert r[j] == rest[j - 1] && rest[j - 1] in rest;
      if i > 0 {
        assert r[i] == rest[i - 1];
      }
    }
  }

  lemma {:induction false} SortedKeysIncreasing<K(!new)>(keys: set<K>, less: (K, K) -> bool)
    requires StrictTotal(less)
    ensures Increasing(SortedKeys(keys, less), less)
    ensures |SortedKeys(keys, less)| == |keys|
    decreases |keys|
  {
    if keys != {} {
      LeastExists(keys, less);
      var k :| k in keys && IsLeast(k, keys, less) && SortedKeys(keys, less) == [k] + SortedKeys(keys - {k}, less);
      SortedKeysIncreasing(keys - {k}, less);
      ConsIncreasing(k, SortedKeys(keys - {k}, less), less);
    }
  }

  /** Lexicographic order on byte strings: the key order of a `BTreeMap<String, _>`. */
  predicate StringLess(a: string, b: string) {
    if b == [] then false
    else if a == [] then true
    else a[0] < b[0] || (a[0] == b[0] && StringLess(a[1..], b[1..]))
  }

  lemma {:induction false} StringLessAsymmetric(a: string, b: string)
    ensures StringLess(a, b) ==> !StringLess(b, a)
    ensures a != b ==> StringLess(a, b) || StringLess(b, a)
  {
    if a != [] && b != [] {
      StringLessAsymmetric(a[1..], b[1..]);
      assert a == [a[0]] + a[1..] && b == [b[0]] + b[1..];
    }
  }

  lemma {:induction false} StringLessTransitive(a: string, b: string, c: string)
    requires StringLess(a, b) && StringLess(b, c)
    ensures StringLess(a, c)
  {
    if a != [] && a[0] == b[0] && b[0] == c[0] {
      StringLessTransitive(a[1..], b[1..], c[1..]);
    }
  }

  lemma StringLessIsStrictTotal()
    ensures StrictTotal(StringLess)
  {
    forall a: string, b: string {
      StringLessAsymmetric(a, b);
    }
    forall a: string, b: string, c: string | StringLess(a, b) && StringLess(b, c) ensures StringLess(a, c) {
      StringLessTransitive(a, b, c);
    }
  }

  lemma TailMembers<K(!new)>(a: seq<K>, k: K, less: (K, K) -> bool)
    requires StrictTotal(less) && a != []
    requires Increasing(a, less)
    ensures k in a[1..] <==> k in a && k != a[0]
  {
    if k in a[1..] {
      var i :| 0 <= i < |a[1..]| && a[1..][i] == k;
      assert less(a[0], a[i + 1]);
    }
    assert a == [a[0]] + a[1..];
  }

  /** Two strictly increasing sequences with the same elements are the same sequence. */
  lemma {:induction false} SortedUnique<K(!new)>(a: seq<K>, b: seq<K>, less: (K, K) -> bool)
    requires StrictTotal(less)
    requires Increasing(a, less)
    requires Increasing(b, less)
    requires forall k :: k in a <==> k in b
    ensures a == b
  {
    assert a != [] ==> a[0] in b;
    assert b != [] ==> b[0] in a;
    if a != [] {
      assert a[0] == b[0];
      forall k ensures k in a[1..] <==> k in b[1..] {
        TailMembers(a, k, less);
        TailMembers(b, k, less);
      }
      SortedUnique(a[1..], b[1..], less);
    }
  }

  // Sums over the values of a finite map.

  ghost function Total<K>(m: map<K, nat>): nat
    decreases |m|
  {
    if m == map[] then 0 else
      var k :| k in m;
      m[k] + Total(m - {k})
  }

  lemma {:induction false} TotalRemove<K>(m: map<K, nat>, k: K)
    requires k in m
    ensures Total(m) == m[k] + Total(m - {k})
    decreases |m|
  {
    var first :| first in m && Total(m) == m[first] + Total(m - {first});
    if first != k {
      TotalRemove(m - {first}, k);
      TotalRemove(m - {k}, first);
      assert m - {first} - {k} == m - {k} - {first};
    }
  }

  lemma TotalUpdate<K>(m: map<K, nat>, k: K, v: nat)
    ensures Total(m[k := v]) == Total(m) + v - (if k in m then m[k] else 0)
  {
    TotalRemove(m[k := v], k);
    if k in m {
      TotalRemove(m, k);
      assert m[k := v] - {k} == m - {k};
    } else {
      assert m[k := v] - {k} == m;
    }
  }
}
