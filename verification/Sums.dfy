/** Sums over selected rows, and their partition by a key. */
module Sums {
  /** SUM(value) over the rows WHERE keep. */
  function Sum<T>(rows: seq<T>, keep: T -> bool, value: T -> int): int {
    if rows == [] then 0
    else (if keep(rows[0]) then value(rows[0]) else 0) + Sum(rows[1..], keep, value)
  }

  /** The rows kept that have the given key. */
  function Having<T, K(==)>(keep: T -> bool, key: T -> K, k: K): T -> bool {
    x => keep(x) && key(x) == k
  }

  /** The sum of the groups of the listed keys. */
  function SumOfGroups<T, K(==)>(rows: seq<T>, keep: T -> bool, key: T -> K, keys: seq<K>, value: T -> int): int {
    if keys == [] then 0
    else Sum(rows, Having(keep, key, keys[0]), value) + SumOfGroups(rows, keep, key, keys[1..], value)
  }

  predicate Distinct<K(==)>(keys: seq<K>) {
    forall i, j | 0 <= i < j < |keys| :: keys[i] != keys[j]
  }

  lemma {:induction false} SumAppends<T>(a: seq<T>, b: seq<T>, keep: T -> bool, value: T -> int)
    ensures Sum(a + b, keep, value) == Sum(a, keep, value) + Sum(b, keep, value)
  {
    if a == [] {
      assert a + b == b;
    } else {
      assert (a + b)[1..] == a[1..] + b;
      SumAppends(a[1..], b, keep, value);
    }
  }

  lemma {:induction false} NoRowsNoSum<T>(rows: seq<T>, keep: T -> bool, value: T -> int)
    requires forall i | 0 <= i < |rows| :: !keep(rows[i])
    ensures Sum(rows, keep, value) == 0
  {
    if rows != [] {
      NoRowsNoSum(rows[1..], keep, value);
    }
  }

  lemma {:induction false} SumAgrees<T>(rows: seq<T>, p: T -> bool, q: T -> bool, value: T -> int)
    requires forall i | 0 <= i < |rows| :: p(rows[i]) == q(rows[i])
    ensures Sum(rows, p, value) == Sum(rows, q, value)
  {
    if rows != [] {
      SumAgrees(rows[1..], p, q, value);
    }
  }

  /** A selection that splits in two disjoint ones sums to the sum of both. */
  lemma {:induction false} SumSplits<T>(rows: seq<T>, p: T -> bool, q: T -> bool, r: T -> bool, value: T -> int)
    requires forall i | 0 <= i < |rows| :: (p(rows[i]) <==> q(rows[i]) || r(rows[i])) && !(q(rows[i]) && r(rows[i]))
    ensures Sum(rows, p, value) == Sum(rows, q, value) + Sum(rows, r, value)
  {
    if rows != [] {
      SumSplits(rows[1..], p, q, r, value);
    }
  }

  lemma {:induction false} GroupsOfNothing<T, K>(keep: T -> bool, key: T -> K, keys: seq<K>, value: T -> int)
    ensures SumOfGroups([], keep, key, keys, value) == 0
  {
    if keys != [] {
      GroupsOfNothing(keep, key, keys[1..], value);
    }
  }

  /** A first row counts in exactly one of the groups of distinct keys. */
  lemma {:induction false} GroupsOfOneMore<T, K>(
      rows: seq<T>, keep: T -> bool, key: T -> K, keys: seq<K>, value: T -> int)
    requires rows != [] && Distinct(keys)
    ensures SumOfGroups(rows, keep, key, keys, value) == SumOfGroups(rows[1..], keep, key, keys, value)
      + (if keep(rows[0]) && key(rows[0]) in keys then value(rows[0]) else 0)
  {
    if keys != [] {
      GroupsOfOneMore(rows, keep, key, keys[1..], value);
    }
  }

  /** The groups of distinct keys that cover the kept rows add up to the whole. */
  lemma {:induction false} GroupsPartition<T, K>(
      rows: seq<T>, keep: T -> bool, key: T -> K, keys: seq<K>, value: T -> int)
    requires Distinct(keys) && forall i | 0 <= i < |rows| :: keep(rows[i]) ==> key(rows[i]) in keys
    ensures SumOfGroups(rows, keep, key, keys, value) == Sum(rows, keep, value)
  {
    if rows == [] {
      GroupsOfNothing(keep, key, keys, value);
    } else {
      GroupsOfOneMore(rows, keep, key, keys, value);
      GroupsPartition(rows[1..], keep, key, keys, value);
    }
  }
}
