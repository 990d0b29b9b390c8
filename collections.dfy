/**
 * Generic sequence operations standing for the SQL primitives the queries use:
 * a filter (`WHERE`), the set of values of a column (`COUNT(DISTINCT …)`), the
 * keys of a `GROUP BY` in order of first appearance, group sizes (`COUNT(*)`),
 * and a sort on a numeric rank (`ORDER BY … DESC`).
 *
 * Each recursive definition peels the LAST element, so that a loop reading a
 * sequence from left to right can be related to it one step at a time.
 */
module Collections {

  /** Elements of s that satisfy p, in their original order. */
  function Filter<T(!new)>(s: seq<T>, p: T -> bool): (r: seq<T>)
    ensures |r| <= |s|
    ensures forall x :: x in r <==> x in s && p(x)
    decreases |s|
  {
    if s == [] then []
    else
      assert s == s[..|s| - 1] + [s[|s| - 1]];
      var f := Filter(s[..|s| - 1], p);
      if p(s[|s| - 1]) then f + [s[|s| - 1]] else f
  }

  lemma FilterSnoc<T(!new)>(s: seq<T>, x: T, p: T -> bool)
    ensures Filter(s + [x], p) == if p(x) then Filter(s, p) + [x] else Filter(s, p)
  {
    assert (s + [x])[..|s + [x]| - 1] == s;
  }

  /** A filter every element passes keeps s whole. */
  lemma {:induction false} FilterAll<T(!new)>(s: seq<T>, p: T -> bool)
    requires forall x :: x in s ==> p(x)
    ensures Filter(s, p) == s
    decreases |s|
  {
    if s != [] {
      var init, x := s[..|s| - 1], s[|s| - 1];
      assert s == init + [x];
      FilterAll(init, p);
      FilterSnoc(init, x, p);
    }
  }

  /** A filter no element passes leaves nothing. */
  lemma {:induction false} FilterNone<T(!new)>(s: seq<T>, p: T -> bool)
    requires forall x :: x in s ==> !p(x)
    ensures Filter(s, p) == []
    decreases |s|
  {
    if s != [] {
      var init, x := s[..|s| - 1], s[|s| - 1];
      assert s == init + [x];
      FilterNone(init, p);
      FilterSnoc(init, x, p);
    }
  }

  /** A filter and its complement split s between them. */
  lemma {:induction false} FilterPartition<T(!new)>(s: seq<T>, p: T -> bool, q: T -> bool)
    requires forall x :: q(x) == !p(x)
    ensures |Filter(s, p)| + |Filter(s, q)| == |s|
    decreases |s|
  {
    if s != [] {
      var init, x := s[..|s| - 1], s[|s| - 1];
      assert s == init + [x];
      FilterPartition(init, p, q);
      FilterSnoc(init, x, p);
      FilterSnoc(init, x, q);
    }
  }

  lemma TakeSnoc<T>(s: seq<T>, i: int)
    requires 0 <= i < |s|
    ensures s[..i + 1] == s[..i] + [s[i]]
  {
  }

  /** The set of values f takes on the elements of s. */
  function Image<T, U>(s: seq<T>, f: T -> U): (r: set<U>)
    ensures |r| <= |s|
    ensures s != [] ==> 1 <= |r|
    ensures forall x :: x in s ==> f(x) in r
    decreases |s|
  {
    if s == [] then {}
    else
      assert s == s[..|s| - 1] + [s[|s| - 1]];
      Image(s[..|s| - 1], f) + {f(s[|s| - 1])}
  }

  lemma ImageSnoc<T, U>(s: seq<T>, x: T, f: T -> U)
    ensures Image(s + [x], f) == Image(s, f) + {f(x)}
  {
    assert (s + [x])[..|s + [x]| - 1] == s;
  }

  lemma PairImage<T, U>(a: T, b: T, f: T -> U)
    ensures Image([a, b], f) == {f(a), f(b)}
  {
    assert [a, b] == [a] + [b];
    assert [] + [a] == [a];
    ImageSnoc([], a, f);
    ImageSnoc([a], b, f);
  }

  /** No two elements of ks are equal. */
  predicate Unique<K(==)>(ks: seq<K>)
  {
    forall i, j :: 0 <= i < j < |ks| ==> ks[i] != ks[j]
  }

  /** No two elements of rows carry the same key. */
  predicate UniqueBy<R, K(==)>(rows: seq<R>, rk: R -> K)
  {
    forall i, j :: 0 <= i < j < |rows| ==> rk(rows[i]) != rk(rows[j])
  }

  /** Some row of rows carries key k. */
  predicate HasKey<R, K(==)>(rows: seq<R>, rk: R -> K, k: K)
  {
    exists i :: 0 <= i < |rows| && rk(rows[i]) == k
  }

  /** The distinct keys of s, in order of first appearance: the groups of a GROUP BY. */
  function DistinctKeys<T, K(==)>(s: seq<T>, key: T -> K): (ks: seq<K>)
    ensures Unique(ks)
    ensures |ks| <= |s|
    ensures forall x :: x in s ==> key(x) in ks
    decreases |s|
  {
    if s == [] then []
    else
      assert s == s[..|s| - 1] + [s[|s| - 1]];
      var d := DistinctKeys(s[..|s| - 1], key);
      var k := key(s[|s| - 1]);
      if k in d then d else d + [k]
  }

  lemma DistinctKeysSnoc<T, K>(s: seq<T>, x: T, key: T -> K)
    ensures DistinctKeys(s + [x], key) ==
            if key(x) in DistinctKeys(s, key) then DistinctKeys(s, key) else DistinctKeys(s, key) + [key(x)]
  {
    assert (s + [x])[..|s + [x]| - 1] == s;
  }

  /** Every distinct key is the key of some element. */
  lemma {:induction false} DistinctKeyWitness<T, K>(s: seq<T>, key: T -> K, k: K) returns (x: T)
    requires k in DistinctKeys(s, key)
    ensures x in s && key(x) == k
    decreases |s|
  {
    var init := s[..|s| - 1];
    assert s == init + [s[|s| - 1]];
    if k in DistinctKeys(init, key) {
      x := DistinctKeyWitness(init, key, k);
    } else {
      x := s[|s| - 1];
    }
  }

  /** The distinct keys are exactly the image of the key function. */
  lemma {:induction false} DistinctKeysAreImage<T, K>(s: seq<T>, key: T -> K)
    ensures forall k :: k in DistinctKeys(s, key) <==> k in Image(s, key)
    decreases |s|
  {
    if s != [] {
      var init := s[..|s| - 1];
      assert s == init + [s[|s| - 1]];
      DistinctKeysAreImage(init, key);
      DistinctKeysSnoc(init, s[|s| - 1], key);
      ImageSnoc(init, s[|s| - 1], key);
    }
  }

  lemma DistinctKeyIffImage<T, K>(s: seq<T>, key: T -> K, k: K)
    ensures k in DistinctKeys(s, key) <==> k in Image(s, key)
  {
    DistinctKeysAreImage(s, key);
  }

  /** There are as many groups as distinct key values. */
  lemma {:induction false} DistinctKeysCount<T, K>(s: seq<T>, key: T -> K)
    ensures |DistinctKeys(s, key)| == |Image(s, key)|
    decreases |s|
  {
    if s != [] {
      var init, x := s[..|s| - 1], s[|s| - 1];
      assert s == init + [x];
      DistinctKeysCount(init, key);
      DistinctKeyIffImage(init, key, key(x));
      DistinctKeysSnoc(init, x, key);
      ImageSnoc(init, x, key);
      if key(x) in Image(init, key) {
        assert Image(init, key) + {key(x)} == Image(init, key);
      } else {
        assert |Image(init, key) + {key(x)}| == |Image(init, key)| + 1;
      }
    }
  }

  /** Two key functions that agree on every element have the same image. */
  lemma {:induction false} ImageAgree<T, U>(s: seq<T>, f: T -> U, g: T -> U)
    requires forall x :: x in s ==> f(x) == g(x)
    ensures Image(s, f) == Image(s, g)
    decreases |s|
  {
    if s != [] {
      var init, x := s[..|s| - 1], s[|s| - 1];
      assert s == init + [x];
      ImageAgree(init, f, g);
      ImageSnoc(init, x, f);
      ImageSnoc(init, x, g);
    }
  }

  function KeyIs<T, K(==)>(key: T -> K, k: K): T -> bool
  {
    (x: T) => key(x) == k
  }

  /** The elements of s whose key is k: one group of a GROUP BY. */
  function Group<T(!new), K(==)>(s: seq<T>, key: T -> K, k: K): (g: seq<T>)
    ensures |g| <= |s|
    ensures forall x :: x in g <==> x in s && key(x) == k
  {
    Filter(s, KeyIs(key, k))
  }

  lemma GroupSnoc<T(!new), K>(s: seq<T>, x: T, key: T -> K, k: K)
    ensures Group(s + [x], key, k) == if key(x) == k then Group(s, key, k) + [x] else Group(s, key, k)
  {
    FilterSnoc(s, x, KeyIs(key, k));
  }

  /** Sum of w over the elements of s (a `reduce((sum, x) => sum + w(x), 0)`). */
  function SumBy<T>(s: seq<T>, w: T -> nat): nat
    decreases |s|
  {
    if s == [] then 0 else SumBy(s[..|s| - 1], w) + w(s[|s| - 1])
  }

  /** When every row weighs at least one, the sum is at least the number of rows. */
  lemma {:induction false} SumByAtLeastLength<T>(s: seq<T>, w: T -> nat)
    requires forall i :: 0 <= i < |s| ==> 1 <= w(s[i])
    ensures |s| <= SumBy(s, w)
    decreases |s|
  {
    if s != [] {
      SumByAtLeastLength(s[..|s| - 1], w);
    }
  }

  /** Sum over the rows of the size of the group of s that each row's key selects. */
  function GroupSizes<T(!new), K(==), R>(s: seq<T>, key: T -> K, rows: seq<R>, rk: R -> K): nat
    decreases |rows|
  {
    if rows == [] then 0
    else GroupSizes(s, key, rows[..|rows| - 1], rk) + |Group(s, key, rk(rows[|rows| - 1]))|
  }

  lemma {:induction false} GroupSizesEmpty<T(!new), K, R>(key: T -> K, rows: seq<R>, rk: R -> K)
    ensures GroupSizes([], key, rows, rk) == 0
    decreases |rows|
  {
    if rows != [] {
      GroupSizesEmpty(key, rows[..|rows| - 1], rk);
    }
  }

  /** One more element of s adds one to the group sizes exactly when some row has its key. */
  lemma {:induction false} GroupSizesSnoc<T(!new), K, R>(s: seq<T>, x: T, key: T -> K, rows: seq<R>, rk: R -> K)
    requires UniqueBy(rows, rk)
    ensures GroupSizes(s + [x], key, rows, rk) == GroupSizes(s, key, rows, rk) + if HasKey(rows, rk, key(x)) then 1 else 0
    decreases |rows|
  {
    if rows != [] {
      var init, last := rows[..|rows| - 1], rows[|rows| - 1];
      assert UniqueBy(init, rk);
      GroupSizesSnoc(s, x, key, init, rk);
      GroupSnoc(s, x, key, rk(last));
      if HasKey(rows, rk, key(x)) {
        var i :| 0 <= i < |rows| && rk(rows[i]) == key(x);
        if i < |rows| - 1 {
          assert HasKey(init, rk, key(x));
          assert rk(last) != key(x);
        } else {
          assert !HasKey(init, rk, key(x));
        }
      } else {
        assert !HasKey(init, rk, key(x));
        assert rk(last) != key(x);
      }
    }
  }

  /** Rows with distinct keys covering every element of s partition s: their groups add up to |s|. */
  lemma {:induction false} GroupSizesCover<T(!new), K, R>(s: seq<T>, key: T -> K, rows: seq<R>, rk: R -> K)
    requires UniqueBy(rows, rk)
    requires forall x :: x in s ==> HasKey(rows, rk, key(x))
    ensures GroupSizes(s, key, rows, rk) == |s|
    decreases |s|
  {
    if s == [] {
      GroupSizesEmpty(key, rows, rk);
    } else {
      var init, x := s[..|s| - 1], s[|s| - 1];
      assert s == init + [x];
      GroupSizesCover(init, key, rows, rk);
      GroupSizesSnoc(init, x, key, rows, rk);
    }
  }

  lemma {:induction false} SumByGroupSizes<T(!new), K, R>(s: seq<T>, key: T -> K, rows: seq<R>, rk: R -> K, w: R -> nat)
    requires forall i :: 0 <= i < |rows| ==> w(rows[i]) == |Group(s, key, rk(rows[i]))|
    ensures SumBy(rows, w) == GroupSizes(s, key, rows, rk)
    decreases |rows|
  {
    if rows != [] {
      SumByGroupSizes(s, key, rows[..|rows| - 1], rk, w);
    }
  }

  /**
   * Count conservation of a GROUP BY: when the rows carry pairwise different
   * keys, every element's key has a row, and each row's weight is the size of
   * its group, the weights add up to the number of elements.
   */
  lemma GroupCountsSum<T(!new), K, R>(s: seq<T>, key: T -> K, rows: seq<R>, rk: R -> K, w: R -> nat)
    requires UniqueBy(rows, rk)
    requires forall x :: x in s ==> HasKey(rows, rk, key(x))
    requires forall i :: 0 <= i < |rows| ==> w(rows[i]) == |Group(s, key, rk(rows[i]))|
    ensures SumBy(rows, w) == |s|
  {
    SumByGroupSizes(s, key, rows, rk, w);
    GroupSizesCover(s, key, rows, rk);
  }

  /** Non-increasing in rank. */
  predicate SortedDesc<T>(s: seq<T>, rank: T -> int)
  {
    forall i, j :: 0 <= i < j < |s| ==> rank(s[i]) >= rank(s[j])
  }

  lemma PrependDesc<T>(x: T, s: seq<T>, rank: T -> int)
    requires SortedDesc(s, rank)
    requires forall k :: 0 <= k < |s| ==> rank(x) >= rank(s[k])
    ensures SortedDesc([x] + s, rank)
  {
    forall i, j | 0 <= i < j < |[x] + s|
      ensures rank(([x] + s)[i]) >= rank(([x] + s)[j])
    {
      assert ([x] + s)[j] == s[j - 1];
      if i > 0 {
        assert ([x] + s)[i] == s[i - 1];
      }
    }
  }

  /** A bound on the ranks of s and of x bounds every rank of a permutation of s plus x. */
  lemma BoundedAfterInsert<T>(t: seq<T>, s: seq<T>, x: T, rank: T -> int, b: int)
    requires multiset(t) == multiset(s) + multiset{x}
    requires forall k :: 0 <= k < |s| ==> b >= rank(s[k])
    requires b >= rank(x)
    ensures forall k :: 0 <= k < |t| ==> b >= rank(t[k])
  {
    forall k | 0 <= k < |t|
      ensures b >= rank(t[k])
    {
      assert t[k] in multiset(t);
      if t[k] != x {
        assert t[k] in multiset(s);
        var m :| 0 <= m < |s| && s[m] == t[k];
      }
    }
  }

  /** Inserts x after every element whose rank is at least x's. */
  function InsertDesc<T>(x: T, s: seq<T>, rank: T -> int): (r: seq<T>)
    requires SortedDesc(s, rank)
    ensures SortedDesc(r, rank)
    ensures multiset(r) == multiset(s) + multiset{x}
    decreases |s|
  {
    if s == [] then [x]
    else if rank(s[0]) < rank(x) then
      PrependDesc(x, s, rank);
      [x] + s
    else
      assert s == [s[0]] + s[1..];
      var t := InsertDesc(x, s[1..], rank);
      BoundedAfterInsert(t, s[1..], x, rank, rank(s[0]));
      PrependDesc(s[0], t, rank);
      [s[0]] + t
  }

  /** A stable insertion sort into non-increasing rank. */
  function SortDesc<T>(s: seq<T>, rank: T -> int): (r: seq<T>)
    ensures SortedDesc(r, rank)
    ensures multiset(r) == multiset(s)
    decreases |s|
  {
    if s == [] then []
    else
      assert s == s[..|s| - 1] + [s[|s| - 1]];
      InsertDesc(s[|s| - 1], SortDesc(s[..|s| - 1], rank), rank)
  }

  lemma CountOfUnique<R, K>(s: seq<R>, rk: R -> K, a: int)
    requires UniqueBy(s, rk) && 0 <= a < |s|
    ensures multiset(s)[s[a]] == 1
  {
    assert s == s[..a] + [s[a]] + s[a + 1..];
    assert s[a] !in s[..a];
    assert s[a] !in s[a + 1..];
    assert multiset(s) == multiset(s[..a]) + multiset{s[a]} + multiset(s[a + 1..]);
  }

  lemma CountOfRepeated<R>(s: seq<R>, i: int, j: int)
    requires 0 <= i < j < |s| && s[i] == s[j]
    ensures multiset(s)[s[i]] >= 2
  {
    assert s == s[..j] + s[j..];
    assert s[i] in s[..j];
    assert s[j] in s[j..];
    assert multiset(s) == multiset(s[..j]) + multiset(s[j..]);
  }

  /** Reordering rows with pairwise different keys keeps the keys pairwise different. */
  lemma PermutationKeepsUniqueBy<R, K>(s: seq<R>, r: seq<R>, rk: R -> K)
    requires multiset(r) == multiset(s)
    requires UniqueBy(s, rk)
    ensures UniqueBy(r, rk)
  {
    forall i, j | 0 <= i < j < |r|
      ensures rk(r[i]) != rk(r[j])
    {
      assert r[i] in multiset(s) && r[j] in multiset(s);
      var a :| 0 <= a < |s| && s[a] == r[i];
      var b :| 0 <= b < |s| && s[b] == r[j];
      if rk(r[i]) == rk(r[j]) {
        assert a == b;
        CountOfRepeated(r, i, j);
        CountOfUnique(s, rk, a);
        assert false;
      }
    }
  }

  /**
   * rows are, as far as keys go, the result of `GROUP BY key` over s: the row
   * keys are pairwise different, every element's key has a row, and behind
   * every row there is at least one element.
   */
  ghost predicate IsGrouping<T(!new), K, R>(rows: seq<R>, rk: R -> K, s: seq<T>, key: T -> K)
  {
    && UniqueBy(rows, rk)
    && (forall x :: x in s ==> HasKey(rows, rk, key(x)))
    && (forall i :: 0 <= i < |rows| ==> Group(s, key, rk(rows[i])) != [])
  }

  /** A GROUP BY yields no more rows than there are elements. */
  lemma GroupCountBound<T(!new), K, R>(rows: seq<R>, rk: R -> K, s: seq<T>, key: T -> K)
    requires IsGrouping(rows, rk, s, key)
    ensures |rows| <= |s|
  {
    var w := (r: R) => |Group(s, key, rk(r))|;
    GroupCountsSum(s, key, rows, rk, w);
    SumByAtLeastLength(rows, w);
  }

  /** One row per distinct key of s, made by mk, in order of first appearance. */
  function GroupRows<T(!new), K(==,!new), R>(s: seq<T>, key: T -> K, mk: K -> R, rk: R -> K): (rows: seq<R>)
    requires forall k :: rk(mk(k)) == k
    ensures IsGrouping(rows, rk, s, key)
    ensures forall i :: 0 <= i < |rows| ==> rows[i] == mk(rk(rows[i]))
    ensures |rows| == |DistinctKeys(s, key)|
    ensures forall i :: 0 <= i < |rows| ==> rk(rows[i]) == DistinctKeys(s, key)[i]
  {
    var ks := DistinctKeys(s, key);
    var rows := seq(|ks|, i requires 0 <= i < |ks| => mk(ks[i]));
    assert forall i :: 0 <= i < |rows| ==> rk(rows[i]) == ks[i];
    assert forall i :: 0 <= i < |rows| ==> Group(s, key, rk(rows[i])) != [] by {
      forall i | 0 <= i < |rows| ensures Group(s, key, rk(rows[i])) != [] {
        var x := DistinctKeyWitness(s, key, ks[i]);
        assert x in Group(s, key, ks[i]);
      }
    }
    rows
  }

  lemma PermutationKeepsGrouping<T(!new), K, R>(rows: seq<R>, sorted: seq<R>, rk: R -> K, s: seq<T>, key: T -> K)
    requires multiset(sorted) == multiset(rows)
    requires IsGrouping(rows, rk, s, key)
    ensures IsGrouping(sorted, rk, s, key)
  {
    PermutationKeepsUniqueBy(rows, sorted, rk);
    forall x | x in s
      ensures HasKey(sorted, rk, key(x))
    {
      var i :| 0 <= i < |rows| && rk(rows[i]) == key(x);
      assert rows[i] in multiset(sorted);
      var j :| 0 <= j < |sorted| && sorted[j] == rows[i];
    }
    forall j | 0 <= j < |sorted|
      ensures Group(s, key, rk(sorted[j])) != []
    {
      assert sorted[j] in multiset(rows);
      var i :| 0 <= i < |rows| && rows[i] == sorted[j];
    }
  }

  /** GroupRows followed by `ORDER BY rank DESC`. */
  function SortedGroupRows<T(!new), K(==,!new), R>(s: seq<T>, key: T -> K, mk: K -> R, rk: R -> K, rank: R -> int): (rows: seq<R>)
    requires forall k :: rk(mk(k)) == k
    ensures IsGrouping(rows, rk, s, key)
    ensures SortedDesc(rows, rank)
    ensures forall i :: 0 <= i < |rows| ==> rows[i] == mk(rk(rows[i]))
  {
    var unsorted := GroupRows(s, key, mk, rk);
    var rows := SortDesc(unsorted, rank);
    PermutationKeepsGrouping(unsorted, rows, rk, s, key);
    assert forall i :: 0 <= i < |rows| ==> rows[i] in multiset(unsorted);
    rows
  }
}
