/**
 * Table operations shared by the pipeline and the reports: the keys of a
 * groupby, group sizes and sums, distinct members of a group (nunique), and
 * the left join of two tables on a key column.
 *
 * Functions that fold over the rows of a table recurse on the last row, so
 * that "one more row" is the induction step of every lemma below.
 */
module Grouping {
  import opened Wrappers

  /** No element occurs twice. */
  predicate NoDuplicates<T(==)>(s: seq<T>) {
    forall i, j :: 0 <= i < j < |s| ==> s[i] != s[j]
  }

  /** The distinct elements of `s`, in order of first appearance. */
  function Distinct<T(==,!new)>(s: seq<T>): (r: seq<T>)
    ensures NoDuplicates(r)
    ensures forall x :: x in r <==> x in s
    ensures |r| <= |s|
  {
    if s == [] then []
    else
      var rest := Distinct(s[..|s| - 1]);
      assert s == s[..|s| - 1] + [s[|s| - 1]];
      if s[|s| - 1] in rest then rest else rest + [s[|s| - 1]]
  }

  /** The present keys of a table's key column, in row order (groupby drops missing keys). */
  function PresentKeys<T, K(!new)>(rows: seq<T>, key: T -> Option<K>): (r: seq<K>)
    ensures |r| <= |rows|
    ensures forall i :: 0 <= i < |rows| && key(rows[i]).Some? ==> key(rows[i]).value in r
    ensures forall k :: k in r ==> exists i :: 0 <= i < |rows| && key(rows[i]) == Some(k)
  {
    if rows == [] then []
    else
      var last := rows[|rows| - 1];
      var r := PresentKeys(rows[..|rows| - 1], key) + (if key(last).Some? then [key(last).value] else []);
      assert forall i :: 0 <= i < |rows| - 1 ==> rows[..|rows| - 1][i] == rows[i];
      r
  }

  /** The group keys of a groupby on `key`: each present key once. */
  function GroupKeys<T, K(==,!new)>(rows: seq<T>, key: T -> Option<K>): (r: seq<K>)
    ensures NoDuplicates(r)
    ensures forall i :: 0 <= i < |rows| && key(rows[i]).Some? ==> key(rows[i]).value in r
    ensures forall k :: k in r ==> exists i :: 0 <= i < |rows| && key(rows[i]) == Some(k)
  {
    Distinct(PresentKeys(rows, key))
  }

  /** The number of rows in group `k` (groupby(...).size()). */
  function GroupSize<T, K(==)>(rows: seq<T>, key: T -> Option<K>, k: K): nat
  {
    if rows == [] then 0
    else GroupSize(rows[..|rows| - 1], key, k) + (if key(rows[|rows| - 1]) == Some(k) then 1 else 0)
  }

  /** The sum of `w` over the rows of group `k` (groupby(...)[col].sum()). */
  function GroupSum<T, K(==)>(rows: seq<T>, key: T -> Option<K>, w: T -> real, k: K): real
  {
    if rows == [] then 0.0
    else GroupSum(rows[..|rows| - 1], key, w, k) + (if key(rows[|rows| - 1]) == Some(k) then w(rows[|rows| - 1]) else 0.0)
  }

  /** The sum of `w` over the rows whose key is present. */
  function PresentSum<T, K>(rows: seq<T>, key: T -> Option<K>, w: T -> real): real
  {
    if rows == [] then 0.0
    else PresentSum(rows[..|rows| - 1], key, w) + (if key(rows[|rows| - 1]).Some? then w(rows[|rows| - 1]) else 0.0)
  }

  /** The present values of `member` among the rows of group `k` (what nunique counts). */
  function Members<T, K(==), U>(rows: seq<T>, key: T -> Option<K>, k: K, member: T -> Option<U>): set<U>
  {
    if rows == [] then {}
    else
      var last := rows[|rows| - 1];
      Members(rows[..|rows| - 1], key, k, member)
        + (if key(last) == Some(k) && member(last).Some? then {member(last).value} else {})
  }

  /** Group sizes added up over a list of keys. */
  function SumSizes<T, K(==)>(keys: seq<K>, rows: seq<T>, key: T -> Option<K>): nat
  {
    if keys == [] then 0
    else SumSizes(keys[..|keys| - 1], rows, key) + GroupSize(rows, key, keys[|keys| - 1])
  }

  /** Group sums added up over a list of keys. */
  function SumGroupSums<T, K(==)>(keys: seq<K>, rows: seq<T>, key: T -> Option<K>, w: T -> real): real
  {
    if keys == [] then 0.0
    else SumGroupSums(keys[..|keys| - 1], rows, key, w) + GroupSum(rows, key, w, keys[|keys| - 1])
  }

  // ----- group sizes -----

  /** A group exists exactly when some row carries its key. */
  lemma {:induction false} GroupSizePositive<T, K(!new)>(rows: seq<T>, key: T -> Option<K>, k: K)
    ensures GroupSize(rows, key, k) > 0 <==> k in PresentKeys(rows, key)
  {
    if rows != [] {
      var p := rows[..|rows| - 1];
      GroupSizePositive(p, key, k);
    }
  }

  /** Adding a row with key `v` to the table adds one to the sum of sizes over keys that contain `v` once. */
  lemma {:induction false} SumSizesSnoc<T, K(!new)>(keys: seq<K>, p: seq<T>, x: T, key: T -> Option<K>)
    requires NoDuplicates(keys)
    ensures SumSizes(keys, p + [x], key)
         == SumSizes(keys, p, key) + (if key(x).Some? && key(x).value in keys then 1 else 0)
  {
    assert (p + [x])[..|p|] == p;
    if keys != [] {
      var ks := keys[..|keys| - 1];
      assert NoDuplicates(ks) by {
        forall i, j | 0 <= i < j < |ks| ensures ks[i] != ks[j] { assert ks[i] == keys[i] && ks[j] == keys[j]; }
      }
      SumSizesSnoc(ks, p, x, key);
      assert keys == ks + [keys[|keys| - 1]];
      assert forall i :: 0 <= i < |ks| ==> ks[i] != keys[|keys| - 1];
    }
  }

  /** One more row adds its key to the group keys when the key is present and new, and leaves them unchanged otherwise. */
  lemma GroupKeysSnoc<T, K(!new)>(p: seq<T>, x: T, key: T -> Option<K>)
    ensures key(x).Some? && key(x).value !in GroupKeys(p, key) ==>
              GroupKeys(p + [x], key) == GroupKeys(p, key) + [key(x).value]
    ensures !(key(x).Some? && key(x).value !in GroupKeys(p, key)) ==> GroupKeys(p + [x], key) == GroupKeys(p, key)
  {
    assert (p + [x])[..|p|] == p;
    var pk := PresentKeys(p, key);
    if key(x).Some? {
      var v := key(x).value;
      assert PresentKeys(p + [x], key) == pk + [v];
      assert (pk + [v])[..|pk|] == pk;
    } else {
      assert PresentKeys(p + [x], key) == pk;
    }
  }

  /**
   * Conservation of rows under a groupby: the group sizes add up to the number
   * of rows whose key is present; rows with a missing key are in no group.
   */
  lemma {:induction false} GroupSizesAddUp<T, K(!new)>(rows: seq<T>, key: T -> Option<K>)
    ensures SumSizes(GroupKeys(rows, key), rows, key) == |PresentKeys(rows, key)|
  {
    if rows != [] {
      var p := rows[..|rows| - 1];
      var x := rows[|rows| - 1];
      assert rows == p + [x];
      GroupSizesAddUp(p, key);
      var d := GroupKeys(p, key);
      SumSizesSnoc(d, p, x, key);
      GroupKeysSnoc(p, x, key);
      if key(x).Some? && key(x).value !in d {
        var v := key(x).value;
        assert (d + [v])[..|d|] == d;
        GroupSizePositive(p, key, v);
      }
    }
  }

  /**
   * A finer grouping has smaller groups: when every row of group `k` under
   * `fine` lies in group `c` under `coarse`, the first group is no larger.
   */
  lemma {:induction false} GroupSizeOfFinerKey<T, K, L>(rows: seq<T>, fine: T -> Option<K>, k: K,
                                                       coarse: T -> Option<L>, c: L)
    requires forall i :: 0 <= i < |rows| && fine(rows[i]) == Some(k) ==> coarse(rows[i]) == Some(c)
    ensures GroupSize(rows, fine, k) <= GroupSize(rows, coarse, c)
  {
    if rows != [] {
      var p := rows[..|rows| - 1];
      assert forall i :: 0 <= i < |p| ==> p[i] == rows[i];
      GroupSizeOfFinerKey(p, fine, k, coarse, c);
    }
  }

  // ----- group sums -----

  /** A key carried by no row has an empty (zero) group sum. */
  lemma {:induction false} GroupSumAbsent<T, K(!new)>(rows: seq<T>, key: T -> Option<K>, w: T -> real, k: K)
    requires k !in PresentKeys(rows, key)
    ensures GroupSum(rows, key, w, k) == 0.0
  {
    if rows != [] {
      var p := rows[..|rows| - 1];
      assert forall z :: z in PresentKeys(p, key) ==> z in PresentKeys(rows, key);
      GroupSumAbsent(p, key, w, k);
    }
  }

  lemma {:induction false} SumGroupSumsSnoc<T, K(!new)>(keys: seq<K>, p: seq<T>, x: T, key: T -> Option<K>, w: T -> real)
    requires NoDuplicates(keys)
    ensures SumGroupSums(keys, p + [x], key, w)
         == SumGroupSums(keys, p, key, w) + (if key(x).Some? && key(x).value in keys then w(x) else 0.0)
  {
    assert (p + [x])[..|p|] == p;
    if keys != [] {
      var ks := keys[..|keys| - 1];
      assert NoDuplicates(ks) by {
        forall i, j | 0 <= i < j < |ks| ensures ks[i] != ks[j] { assert ks[i] == keys[i] && ks[j] == keys[j]; }
      }
      SumGroupSumsSnoc(ks, p, x, key, w);
      assert keys == ks + [keys[|keys| - 1]];
      assert forall i :: 0 <= i < |ks| ==> ks[i] != keys[|keys| - 1];
    }
  }

  lemma PresentSumSnoc<T, K>(p: seq<T>, x: T, key: T -> Option<K>, w: T -> real)
    ensures PresentSum(p + [x], key, w) == PresentSum(p, key, w) + (if key(x).Some? then w(x) else 0.0)
  {
    assert (p + [x])[..|p|] == p;
  }

  /** One more row adds its weight to the group sums exactly when its key is present. */
  lemma GroupSumsStep<T, K(!new)>(p: seq<T>, x: T, key: T -> Option<K>, w: T -> real)
    ensures SumGroupSums(GroupKeys(p + [x], key), p + [x], key, w)
         == SumGroupSums(GroupKeys(p, key), p, key, w) + (if key(x).Some? then w(x) else 0.0)
  {
    var d := GroupKeys(p, key);
    var rows := p + [x];
    SumGroupSumsSnoc(d, p, x, key, w);
    GroupKeysSnoc(p, x, key);
    if key(x).Some? && key(x).value !in d {
      NewGroupSum(p, x, key, w, d);
    }
  }

  lemma NewGroupSum<T, K(!new)>(p: seq<T>, x: T, key: T -> Option<K>, w: T -> real, d: seq<K>)
    requires d == GroupKeys(p, key)
    requires key(x).Some? && key(x).value !in d
    ensures SumGroupSums(d + [key(x).value], p + [x], key, w) == SumGroupSums(d, p + [x], key, w) + w(x)
  {
    var v := key(x).value;
    var rows := p + [x];
    assert (d + [v])[..|d|] == d;
    assert rows[..|p|] == p;
    GroupSumAbsent(p, key, w, v);
    assert GroupSum(rows, key, w, v) == w(x);
  }

  /** Conservation of a summed column under a groupby: the group sums add up to the column's total over rows with a present key. */
  lemma {:induction false} GroupSumsAddUp<T, K(!new)>(rows: seq<T>, key: T -> Option<K>, w: T -> real)
    ensures SumGroupSums(GroupKeys(rows, key), rows, key, w) == PresentSum(rows, key, w)
  {
    if rows != [] {
      var p := rows[..|rows| - 1];
      var x := rows[|rows| - 1];
      assert rows == p + [x];
      GroupSumsAddUp(p, key, w);
      GroupSumsStep(p, x, key, w);
      PresentSumSnoc(p, x, key, w);
    }
  }

  /** A group sum of values within [0, hi] lies within [0, size * hi]. */
  lemma {:induction false} GroupSumBounds<T, K>(rows: seq<T>, key: T -> Option<K>, w: T -> real, k: K, hi: real)
    requires forall i :: 0 <= i < |rows| && key(rows[i]) == Some(k) ==> 0.0 <= w(rows[i]) <= hi
    ensures 0.0 <= GroupSum(rows, key, w, k) <= GroupSize(rows, key, k) as real * hi
  {
    if rows != [] {
      var p := rows[..|rows| - 1];
      var x := rows[|rows| - 1];
      assert forall i :: 0 <= i < |p| ==> p[i] == rows[i];
      GroupSumBounds(p, key, w, k, hi);
      var n := GroupSize(p, key, k) as real;
      var sum := GroupSum(p, key, w, k);
      if key(x) == Some(k) {
        assert GroupSize(rows, key, k) as real == n + 1.0;
        assert GroupSum(rows, key, w, k) == sum + w(x);
        StepBound(n, sum, w(x), hi);
      } else {
        assert GroupSize(rows, key, k) as real == n;
        assert GroupSum(rows, key, w, k) == sum;
      }
    }
  }

  /** The mean of a nonempty group of values within [0, hi] lies within [0, hi]. */
  lemma GroupMeanWithin<T, K>(rows: seq<T>, key: T -> Option<K>, w: T -> real, k: K, hi: real)
    requires GroupSize(rows, key, k) > 0
    requires forall i :: 0 <= i < |rows| && key(rows[i]) == Some(k) ==> 0.0 <= w(rows[i]) <= hi
    ensures 0.0 <= GroupSum(rows, key, w, k) / GroupSize(rows, key, k) as real <= hi
  {
    GroupSumBounds(rows, key, w, k, hi);
    MeanBound(GroupSum(rows, key, w, k), GroupSize(rows, key, k) as real, hi);
  }

  lemma MeanBound(sum: real, n: real, hi: real)
    requires n > 0.0 && 0.0 <= sum <= n * hi
    ensures 0.0 <= sum / n <= hi
  {
  }

  lemma StepBound(n: real, sum: real, x: real, hi: real)
    requires 0.0 <= sum <= n * hi && 0.0 <= x <= hi
    ensures 0.0 <= sum + x <= (n + 1.0) * hi
  {
  }

  // ----- distinct members -----

  /** A group has at most as many distinct members as rows. */
  lemma {:induction false} MembersAtMostSize<T, K, U>(rows: seq<T>, key: T -> Option<K>, k: K, member: T -> Option<U>)
    ensures |Members(rows, key, k, member)| <= GroupSize(rows, key, k)
  {
    if rows != [] {
      MembersAtMostSize(rows[..|rows| - 1], key, k, member);
    }
  }

  /**
   * Coarser groups have more members: when every row of group `k` under `fine`
   * lies in group `K` under `coarse`, the members of the first are members of the second.
   */
  lemma {:induction false} MembersOfFinerGroup<T, K, L, U>(rows: seq<T>, fine: T -> Option<K>, k: K,
                                                          coarse: T -> Option<L>, c: L, member: T -> Option<U>)
    requires forall i :: 0 <= i < |rows| && fine(rows[i]) == Some(k) ==> coarse(rows[i]) == Some(c)
    ensures Members(rows, fine, k, member) <= Members(rows, coarse, c, member)
  {
    if rows != [] {
      var p := rows[..|rows| - 1];
      assert forall i :: 0 <= i < |p| ==> p[i] == rows[i];
      MembersOfFinerGroup(p, fine, k, coarse, c, member);
    }
  }

  /** A subset is no larger than its superset. */
  lemma {:induction false} SubsetCardinality<U>(a: set<U>, b: set<U>)
    requires a <= b
    ensures |a| <= |b|
    decreases |a|
  {
    if a != {} {
      var x :| x in a;
      SubsetCardinality(a - {x}, b - {x});
    }
  }

  // ----- left join -----

  /** The right rows whose key is `k`, in right-table order. */
  function Matches<R, K(==)>(right: seq<R>, rk: R -> K, k: K): (ms: seq<R>)
    ensures forall m :: m in ms ==> m in right && rk(m) == k
    ensures forall i :: 0 <= i < |right| && rk(right[i]) == k ==> right[i] in ms
  {
    if right == [] then []
    else (if rk(right[0]) == k then [right[0]] else []) + Matches(right[1..], rk, k)
  }

  /** The key column of `right` holds no key twice (movie_id in movies, user_id in users). */
  predicate UniqueKeys<R, K(==)>(right: seq<R>, rk: R -> K) {
    forall i, j :: 0 <= i < j < |right| ==> rk(right[i]) != rk(right[j])
  }

  /** The right row a left key joins to, if any (its first match). */
  function Lookup<R, K(==)>(right: seq<R>, rk: R -> K, k: Option<K>): (r: Option<R>)
    ensures r.Some? ==> r.value in right && Some(rk(r.value)) == k
    ensures r.None? ==> forall i :: 0 <= i < |right| ==> Some(rk(right[i])) != k
  {
    if k.None? then None
    else
      var ms := Matches(right, rk, k.value);
      if ms == [] then None else Some(ms[0])
  }

  /** The rows one left row produces in a left merge: one per match, or one with nothing joined. */
  function JoinRow<L, R, K(==), O>(l: L, right: seq<R>, lk: L -> Option<K>, rk: R -> K,
                                   combine: (L, Option<R>) -> O): (os: seq<O>)
    ensures |os| >= 1
  {
    var ms := if lk(l).Some? then Matches(right, rk, lk(l).value) else [];
    if ms == [] then [combine(l, None)]
    else seq(|ms|, i requires 0 <= i < |ms| => combine(l, Some(ms[i])))
  }

  /**
   * pd.merge(left, right, on=key, how='left'): every left row in order, each
   * followed by all its matches; a row with no match (or a missing key) is kept
   * once with nothing joined.
   */
  function LeftJoin<L, R, K(==), O>(left: seq<L>, right: seq<R>, lk: L -> Option<K>, rk: R -> K,
                                    combine: (L, Option<R>) -> O): (r: seq<O>)
    ensures |r| >= |left|
  {
    if left == [] then []
    else JoinRow(left[0], right, lk, rk, combine) + LeftJoin(left[1..], right, lk, rk, combine)
  }

  /**
   * pd.merge(left, right, on=key, how='inner'): every left row in order, each
   * followed by all its matches; a left row without a match produces nothing.
   */
  function InnerJoin<L, R, K(==), O>(left: seq<L>, right: seq<R>, lk: L -> K, rk: R -> K,
                                     combine: (L, R) -> O): seq<O>
  {
    if left == [] then []
    else
      var ms := Matches(right, rk, lk(left[0]));
      seq(|ms|, i requires 0 <= i < |ms| => combine(left[0], ms[i])) + InnerJoin(left[1..], right, lk, rk, combine)
  }

  /**
   * The rows of an inner join are exactly the combinations of a left row and a
   * right row with equal keys: keys present on one side only produce nothing.
   */
  lemma {:induction false} InnerJoinRows<L, R, K, O>(left: seq<L>, right: seq<R>, lk: L -> K, rk: R -> K,
                                                     combine: (L, R) -> O)
    ensures forall l, m :: l in left && m in right && lk(l) == rk(m) ==> combine(l, m) in InnerJoin(left, right, lk, rk, combine)
    ensures forall o :: o in InnerJoin(left, right, lk, rk, combine) ==>
              exists l, m :: l in left && m in right && lk(l) == rk(m) && o == combine(l, m)
  {
    if left != [] {
      var tail := left[1..];
      InnerJoinRows(tail, right, lk, rk, combine);
      var ms := Matches(right, rk, lk(left[0]));
      var head := seq(|ms|, i requires 0 <= i < |ms| => combine(left[0], ms[i]));
      var r := InnerJoin(left, right, lk, rk, combine);
      assert r == head + InnerJoin(tail, right, lk, rk, combine);
      forall l, m | l in left && m in right && lk(l) == rk(m) ensures combine(l, m) in r {
        if l == left[0] {
          var i :| 0 <= i < |ms| && ms[i] == m;
          assert head[i] == combine(l, m);
        } else {
          assert l in tail;
        }
      }
      forall o | o in r ensures exists l, m :: l in left && m in right && lk(l) == rk(m) && o == combine(l, m) {
        if o in head {
          var i :| 0 <= i < |ms| && head[i] == o;
          assert ms[i] in ms;
          assert left[0] in left && ms[i] in right && lk(left[0]) == rk(ms[i]) && o == combine(left[0], ms[i]);
        } else {
          var l, m :| l in tail && m in right && lk(l) == rk(m) && o == combine(l, m);
          assert l in left;
        }
      }
    }
  }

  /** A key that no right row carries has no matches. */
  lemma {:induction false} NoMatches<R, K>(right: seq<R>, rk: R -> K, k: K)
    requires forall j :: 0 <= j < |right| ==> rk(right[j]) != k
    ensures Matches(right, rk, k) == []
  {
    if right != [] {
      NoMatches(right[1..], rk, k);
    }
  }

  /** Against a table with unique keys a key has at most one match. */
  lemma {:induction false} UniqueMatch<R, K>(right: seq<R>, rk: R -> K, k: K)
    requires UniqueKeys(right, rk)
    ensures |Matches(right, rk, k)| <= 1
  {
    if right != [] {
      var tail := right[1..];
      assert UniqueKeys(tail, rk) by {
        forall i, j | 0 <= i < j < |tail| ensures rk(tail[i]) != rk(tail[j]) {
          assert tail[i] == right[i + 1] && tail[j] == right[j + 1];
        }
      }
      UniqueMatch(tail, rk, k);
      if rk(right[0]) == k {
        assert forall j :: 0 <= j < |tail| ==> rk(tail[j]) != k by {
          forall j | 0 <= j < |tail| ensures rk(tail[j]) != k { assert tail[j] == right[j + 1]; }
        }
        NoMatches(tail, rk, k);
      }
    }
  }

  /**
   * Row preservation of a left join against a table with unique keys: exactly
   * one output row per left row, in order, joined to the row its key looks up.
   */
  lemma {:induction false} LeftJoinUnique<L, R, K, O>(left: seq<L>, right: seq<R>, lk: L -> Option<K>, rk: R -> K,
                                                     combine: (L, Option<R>) -> O)
    requires UniqueKeys(right, rk)
    ensures |LeftJoin(left, right, lk, rk, combine)| == |left|
    ensures forall i :: 0 <= i < |left| ==>
              LeftJoin(left, right, lk, rk, combine)[i] == combine(left[i], Lookup(right, rk, lk(left[i])))
  {
    if left != [] {
      LeftJoinUnique(left[1..], right, lk, rk, combine);
      var l := left[0];
      if lk(l).Some? {
        UniqueMatch(right, rk, lk(l).value);
      }
      var head := JoinRow(l, right, lk, rk, combine);
      assert head == [combine(l, Lookup(right, rk, lk(l)))];
      var r := LeftJoin(left, right, lk, rk, combine);
      forall i | 0 <= i < |left|
        ensures r[i] == combine(left[i], Lookup(right, rk, lk(left[i])))
      {
        if i > 0 {
          assert r[i] == LeftJoin(left[1..], right, lk, rk, combine)[i - 1];
          assert left[1..][i - 1] == left[i];
        }
      }
    }
  }
  // ----- columns of aggregates -----

  /** The sum of a column of counts. */
  function SumNat(xs: seq<nat>): nat {
    if xs == [] then 0 else SumNat(xs[..|xs| - 1]) + xs[|xs| - 1]
  }

  /** The sum of a column of floats. */
  function SumReal(xs: seq<real>): real {
    if xs == [] then 0.0 else SumReal(xs[..|xs| - 1]) + xs[|xs| - 1]
  }

  /** The size column of a groupby, one entry per key. */
  function SizeColumn<T, K(==)>(keys: seq<K>, rows: seq<T>, key: T -> Option<K>): (col: seq<nat>)
    ensures |col| == |keys|
    ensures forall i :: 0 <= i < |keys| ==> col[i] == GroupSize(rows, key, keys[i])
  {
    seq(|keys|, i requires 0 <= i < |keys| => GroupSize(rows, key, keys[i]))
  }

  /** The sum column of a groupby, one entry per key. */
  function SumColumn<T, K(==)>(keys: seq<K>, rows: seq<T>, key: T -> Option<K>, w: T -> real): (col: seq<real>)
    ensures |col| == |keys|
    ensures forall i :: 0 <= i < |keys| ==> col[i] == GroupSum(rows, key, w, keys[i])
  {
    seq(|keys|, i requires 0 <= i < |keys| => GroupSum(rows, key, w, keys[i]))
  }

  lemma {:induction false} SizeColumnSum<T, K>(keys: seq<K>, rows: seq<T>, key: T -> Option<K>)
    ensures SumNat(SizeColumn(keys, rows, key)) == SumSizes(keys, rows, key)
  {
    if keys != [] {
      var ks := keys[..|keys| - 1];
      SizeColumnSum(ks, rows, key);
      assert SizeColumn(keys, rows, key)[..|keys| - 1] == SizeColumn(ks, rows, key);
    }
  }

  lemma {:induction false} SumColumnSum<T, K>(keys: seq<K>, rows: seq<T>, key: T -> Option<K>, w: T -> real)
    ensures SumReal(SumColumn(keys, rows, key, w)) == SumGroupSums(keys, rows, key, w)
  {
    if keys != [] {
      var ks := keys[..|keys| - 1];
      SumColumnSum(ks, rows, key, w);
      assert SumColumn(keys, rows, key, w)[..|keys| - 1] == SumColumn(ks, rows, key, w);
    }
  }
}
