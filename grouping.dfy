// Grouping rows by a key, as the route handlers do with a dict they fill in a
// loop: the keys in order of first appearance, per-key sums, and the facts that
// the per-key sums add up to the total and that reordering keeps sums.

module Grouping {
  import opened Sorting

  /** The distinct keys of `rows`, in the order a dict first sees them. */
  function DistinctKeys<R, K(==)>(rows: seq<R>, key: R -> K): (ks: seq<K>)
    ensures forall i, j :: 0 <= i < j < |ks| ==> ks[i] != ks[j]
  {
    if rows == [] then []
    else
      var ks := DistinctKeys(rows[..|rows| - 1], key);
      var k := key(rows[|rows| - 1]);
      if k in ks then ks else ks + [k]
  }

  predicate HasKey<R, K(==)>(rows: seq<R>, key: R -> K, k: K)
  {
    exists i :: 0 <= i < |rows| && key(rows[i]) == k
  }

  lemma {:induction false} DistinctKeysMembers<R, K>(rows: seq<R>, key: R -> K, k: K)
    ensures k in DistinctKeys(rows, key) <==> HasKey(rows, key, k)
  {
    if rows != [] {
      var init := rows[..|rows| - 1];
      DistinctKeysMembers(init, key, k);
      if HasKey(rows, key, k) && key(rows[|rows| - 1]) != k {
        var i :| 0 <= i < |rows| && key(rows[i]) == k;
        assert init[i] == rows[i];
      }
      if HasKey(init, key, k) {
        var i :| 0 <= i < |init| && key(init[i]) == k;
        assert rows[i] == init[i];
      }
    }
  }

  /** Sum of `val` over the rows. */
  function SumBy<R>(rows: seq<R>, val: R -> int): int
  {
    if rows == [] then 0 else SumBy(rows[..|rows| - 1], val) + val(rows[|rows| - 1])
  }

  /** Sum of `val` over the rows whose key is `k`: what `d[k] += val(row)` leaves in the dict. */
  function SumWhere<R, K(==)>(rows: seq<R>, key: R -> K, k: K, val: R -> int): int
  {
    if rows == [] then 0
    else SumWhere(rows[..|rows| - 1], key, k, val) + (if key(rows[|rows| - 1]) == k then val(rows[|rows| - 1]) else 0)
  }

  lemma {:induction false} SumByAppend<R>(a: seq<R>, b: seq<R>, val: R -> int)
    ensures SumBy(a + b, val) == SumBy(a, val) + SumBy(b, val)
  {
    if b == [] {
      assert a + b == a;
    } else {
      assert (a + b)[..|a + b| - 1] == a + b[..|b| - 1];
      SumByAppend(a, b[..|b| - 1], val);
    }
  }

  lemma {:induction false} SumWhereAbsent<R, K>(rows: seq<R>, key: R -> K, k: K, val: R -> int)
    requires !HasKey(rows, key, k)
    ensures SumWhere(rows, key, k, val) == 0
  {
    if rows != [] {
      var init := rows[..|rows| - 1];
      forall i | 0 <= i < |init|
        ensures key(init[i]) != k
      {
        assert rows[i] == init[i];
      }
      SumWhereAbsent(init, key, k, val);
    }
  }

  /** Summing over distinct keys a function that grew by `d` at `k0` alone. */
  lemma {:induction false} SumByBump<K>(ks: seq<K>, f: K -> int, g: K -> int, k0: K, d: int)
    requires forall i, j :: 0 <= i < j < |ks| ==> ks[i] != ks[j]
    requires forall k :: f(k) == g(k) + (if k == k0 then d else 0)
    ensures SumBy(ks, f) == SumBy(ks, g) + (if k0 in ks then d else 0)
  {
    if ks != [] {
      var init := ks[..|ks| - 1];
      SumByBump(init, f, g, k0, d);
      assert k0 in ks <==> k0 in init || ks[|ks| - 1] == k0;
      assert ks[|ks| - 1] !in init;
    }
  }

  /** The per-key sums as a function of the key. */
  function Summer<R, K(==)>(rows: seq<R>, key: R -> K, val: R -> int): K -> int
  {
    k => SumWhere(rows, key, k, val)
  }

  /** The per-key sums of a grouping add up to the sum over all rows. */
  lemma {:induction false} GroupTotals<R, K>(rows: seq<R>, key: R -> K, val: R -> int)
    ensures SumBy(DistinctKeys(rows, key), Summer(rows, key, val)) == SumBy(rows, val)
  {
    if rows != [] {
      var init := rows[..|rows| - 1];
      var r := rows[|rows| - 1];
      var k0 := key(r);
      var ks := DistinctKeys(init, key);
      var f := Summer(rows, key, val);
      var g := Summer(init, key, val);
      GroupTotals(init, key, val);
      assert forall k :: f(k) == g(k) + (if k == k0 then val(r) else 0);
      SumByBump(ks, f, g, k0, val(r));
      if k0 !in ks {
        DistinctKeysMembers(init, key, k0);
        SumWhereAbsent(init, key, k0, val);
        var ks2 := ks + [k0];
        assert ks2[..|ks2| - 1] == ks;
        assert SumBy(ks2, f) == SumBy(ks, f) + f(k0);
      }
    }
  }

  /** With values that are never negative, one key's share lies between 0 and the whole. */
  lemma {:induction false} SumWhereBounds<R, K>(rows: seq<R>, key: R -> K, k: K, val: R -> int)
    requires forall r :: val(r) >= 0
    ensures 0 <= SumWhere(rows, key, k, val) <= SumBy(rows, val)
  {
    if rows != [] {
      SumWhereBounds(rows[..|rows| - 1], key, k, val);
    }
  }

  /** A key that occurs, with values of at least 1, has a positive sum. */
  lemma {:induction false} SumWherePresent<R, K>(rows: seq<R>, key: R -> K, k: K, val: R -> int)
    requires forall r :: val(r) >= 1
    requires HasKey(rows, key, k)
    ensures SumWhere(rows, key, k, val) >= 1
  {
    var init := rows[..|rows| - 1];
    if key(rows[|rows| - 1]) == k {
      SumWhereBounds(init, key, k, val);
    } else {
      var i :| 0 <= i < |rows| && key(rows[i]) == k;
      assert init[i] == rows[i];
      SumWherePresent(init, key, k, val);
    }
  }

  /** Every row counted once: the counts of a grouping add up to the number of rows. */
  lemma {:induction false} SumOfOnes<R>(rows: seq<R>, one: R -> int)
    requires forall r :: one(r) == 1
    ensures SumBy(rows, one) == |rows|
  {
    if rows != [] {
      SumOfOnes(rows[..|rows| - 1], one);
    }
  }

  /** Taking one item out of a sequence takes its value out of the sum. */
  lemma SumByRemove<R>(b: seq<R>, i: nat, val: R -> int)
    requires i < |b|
    ensures SumBy(b, val) == SumBy(b[..i] + b[i + 1..], val) + val(b[i])
  {
    var p, x, q := b[..i], b[i], b[i + 1..];
    assert b == (p + [x]) + q;
    SumByAppend(p + [x], q, val);
    SumByAppend(p, [x], val);
    SumByAppend(p, q, val);
    assert SumBy([x], val) == val(x) by {
      assert [x][..0] == [];
    }
  }

  lemma MultisetRemove<R>(b: seq<R>, i: nat)
    requires i < |b|
    ensures multiset(b[..i] + b[i + 1..]) == multiset(b) - multiset{b[i]}
  {
    assert b == b[..i] + [b[i]] + b[i + 1..];
  }

  /** Rearranging the items keeps their sum. */
  lemma {:induction false} SumByPermutation<R>(a: seq<R>, b: seq<R>, val: R -> int)
    requires multiset(a) == multiset(b)
    ensures SumBy(a, val) == SumBy(b, val)
    decreases |a|
  {
    if a == [] {
      assert |b| == |multiset(b)| == 0;
    } else {
      var x := a[|a| - 1];
      var init := a[..|a| - 1];
      assert a == init + [x];
      assert multiset(init) == multiset(a) - multiset{x};
      assert x in multiset(b);
      var i :| 0 <= i < |b| && b[i] == x;
      MultisetRemove(b, i);
      SumByPermutation(init, b[..i] + b[i + 1..], val);
      SumByRemove(b, i, val);
    }
  }

  /** The items a comprehension over the keys builds, one per key. */
  function MapSeq<K, T>(ks: seq<K>, make: K -> T): (r: seq<T>)
    ensures |r| == |ks|
    ensures forall i :: 0 <= i < |ks| ==> r[i] == make(ks[i])
  {
    seq(|ks|, i requires 0 <= i < |ks| => make(ks[i]))
  }

  function Composed<K, T>(make: K -> T, val: T -> int): K -> int
  {
    k => val(make(k))
  }

  /** Summing `val` over items made from keys is summing the composite over the keys. */
  lemma {:induction false} SumByMap<K, T>(ks: seq<K>, make: K -> T, val: T -> int)
    ensures SumBy(MapSeq(ks, make), val) == SumBy(ks, Composed(make, val))
  {
    if ks != [] {
      var init := ks[..|ks| - 1];
      SumByMap(init, make, val);
      var items := MapSeq(ks, make);
      assert items[..|items| - 1] == MapSeq(init, make);
    }
  }

  lemma {:induction false} SumByExtensional<K>(ks: seq<K>, f: K -> int, g: K -> int)
    requires forall k :: f(k) == g(k)
    ensures SumBy(ks, f) == SumBy(ks, g)
  {
    if ks != [] {
      SumByExtensional(ks[..|ks| - 1], f, g);
    }
  }

  /**
   * A rearrangement `d` of the items built from distinct keys, each item
   * carrying its key as a tag, has one item per key: tags are distinct,
   * they are exactly the keys, and each item is the one built from its tag.
   */
  lemma LabelledPermutation<K, T>(ks: seq<K>, make: K -> T, tag: T -> K, d: seq<T>)
    requires forall i, j :: 0 <= i < j < |ks| ==> ks[i] != ks[j]
    requires forall k :: tag(make(k)) == k
    requires multiset(d) == multiset(MapSeq(ks, make))
    ensures forall i :: 0 <= i < |d| ==> d[i] == make(tag(d[i])) && tag(d[i]) in ks
    ensures forall i, j :: 0 <= i < j < |d| ==> tag(d[i]) != tag(d[j])
    ensures forall k :: k in ks ==> exists i :: 0 <= i < |d| && tag(d[i]) == k
  {
    var items := MapSeq(ks, make);
    forall i | 0 <= i < |d|
      ensures d[i] == make(tag(d[i])) && tag(d[i]) in ks
    {
      assert d[i] in multiset(items);
      var a :| 0 <= a < |items| && items[a] == d[i];
      assert tag(d[i]) == ks[a];
    }
    forall i, j | 0 <= i < j < |items|
      ensures items[i] != items[j]
    {
      assert tag(items[i]) == ks[i];
    }
    PermutationKeepsDistinct(items, d);
    forall k | k in ks
      ensures exists i :: 0 <= i < |d| && tag(d[i]) == k
    {
      var a :| 0 <= a < |ks| && ks[a] == k;
      assert items[a] in multiset(d);
      var i :| 0 <= i < |d| && d[i] == items[a];
      assert tag(d[i]) == k;
    }
  }

  // A SQL `GROUP BY key` with `count()`, its groups in order of first appearance.

  datatype Group<K> = Group(key: K, count: int)

  function CountOne<R>(r: R): int { 1 }

  function GroupSize<K>(g: Group<K>): int { g.count }

  function GroupMaker<R, K(==)>(rows: seq<R>, key: R -> K): K -> Group<K>
  {
    k => Group(k, SumWhere(rows, key, k, CountOne))
  }

  function GroupBy<R, K(==)>(rows: seq<R>, key: R -> K): seq<Group<K>>
  {
    MapSeq(DistinctKeys(rows, key), GroupMaker(rows, key))
  }

  /** The group counts add up to the number of rows. */
  lemma GroupSizesTotal<R, K>(rows: seq<R>, key: R -> K)
    ensures SumBy(GroupBy(rows, key), GroupSize) == |rows|
  {
    var ks := DistinctKeys(rows, key);
    SumByMap(ks, GroupMaker(rows, key), GroupSize);
    SumByExtensional(ks, Composed(GroupMaker(rows, key), GroupSize), Summer(rows, key, CountOne));
    GroupTotals(rows, key, CountOne);
    SumOfOnes(rows, CountOne);
  }

  /** The count of the last group with key `k`, 0 when there is none: a loop that overwrites a slot per group. */
  function LastCount<K(==)>(groups: seq<Group<K>>, k: K): int
  {
    if groups == [] then 0
    else if groups[|groups| - 1].key == k then groups[|groups| - 1].count
    else LastCount(groups[..|groups| - 1], k)
  }

  lemma {:induction false} LastCountOfMap<R, K>(ks: seq<K>, rows: seq<R>, key: R -> K, k: K)
    ensures LastCount(MapSeq(ks, GroupMaker(rows, key)), k) == if k in ks then SumWhere(rows, key, k, CountOne) else 0
  {
    if ks != [] {
      var init := ks[..|ks| - 1];
      assert MapSeq(ks, GroupMaker(rows, key))[..|ks| - 1] == MapSeq(init, GroupMaker(rows, key));
      LastCountOfMap(init, rows, key, k);
      assert k in ks <==> k in init || ks[|ks| - 1] == k;
    }
  }

  /** Reading a key's group back from the groups gives the number of rows with that key. */
  lemma GroupCount<R, K>(rows: seq<R>, key: R -> K, k: K)
    ensures LastCount(GroupBy(rows, key), k) == SumWhere(rows, key, k, CountOne)
  {
    LastCountOfMap(DistinctKeys(rows, key), rows, key, k);
    DistinctKeysMembers(rows, key, k);
    if !HasKey(rows, key, k) {
      SumWhereAbsent(rows, key, k, CountOne);
    }
  }
}
