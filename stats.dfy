/**
 * Numeric helpers with pandas' meaning: the median
 * (Series.median: NaN-skipping, mean of the two middle values for an even
 * count), and float division with its infinities and NaN.
 */
module Stats {
  import opened Wrappers

  predicate Sorted(s: seq<real>) {
    forall i, j :: 0 <= i < j < |s| ==> s[i] <= s[j]
  }

  /** A value no larger than every element of a sorted sequence can go in front. */
  lemma SortedCons(y: real, t: seq<real>)
    requires Sorted(t)
    requires forall i :: 0 <= i < |t| ==> y <= t[i]
    ensures Sorted([y] + t)
  {
    var r := [y] + t;
    forall i, j | 0 <= i < j < |r| ensures r[i] <= r[j] {
      assert r[j] == t[j - 1];
      if i > 0 {
        assert r[i] == t[i - 1];
      }
    }
  }

  /** Inserts `x` into a sorted sequence. */
  function Insert(x: real, s: seq<real>): (r: seq<real>)
    requires Sorted(s)
    ensures Sorted(r)
    ensures multiset(r) == multiset(s) + multiset{x}
    ensures forall i :: 0 <= i < |r| ==> r[i] == x || r[i] in s
  {
    if s == [] then [x]
    else if x <= s[0] then
      SortedCons(x, s);
      [x] + s
    else
      var t := Insert(x, s[1..]);
      assert s == [s[0]] + s[1..];
      assert forall i :: 0 <= i < |t| ==> s[0] <= t[i];
      SortedCons(s[0], t);
      assert multiset([s[0]] + t) == multiset{s[0]} + multiset(t);
      [s[0]] + t
  }

  /** The values of `s` in ascending order. */
  function Sort(s: seq<real>): (r: seq<real>)
    ensures Sorted(r)
    ensures multiset(r) == multiset(s)
    ensures |r| == |s|
  {
    if s == [] then []
    else
      assert s == [s[0]] + s[1..];
      Insert(s[0], Sort(s[1..]))
  }

  /** Series.median(): missing for an empty column, otherwise the middle value (or the mean of the two middle values) of the sorted column. */
  function Median(xs: seq<real>): (m: Option<real>)
    ensures m.Some? <==> xs != []
  {
    if xs == [] then None else Some(Middle(Sort(xs)))
  }

  /** The middle value of a nonempty sorted column, or the mean of its two middle values. */
  function Middle(s: seq<real>): real
    requires s != []
  {
    var n := |s|;
    if n % 2 == 1 then s[n / 2] else (s[n / 2 - 1] + s[n / 2]) / 2.0
  }

  /** The median lies within any bounds that hold of every value (so between the least and the greatest value). */
  lemma MedianWithinBounds(xs: seq<real>, lo: real, hi: real)
    requires xs != []
    requires forall i :: 0 <= i < |xs| ==> lo <= xs[i] <= hi
    ensures lo <= Median(xs).value <= hi
  {
    var s := Sort(xs);
    forall i | 0 <= i < |s| ensures lo <= s[i] <= hi {
      assert s[i] in multiset(s);
      assert s[i] in multiset(xs);
      var j :| 0 <= j < |xs| && xs[j] == s[i];
    }
  }

  /** The first element of a sorted sequence is its least. */
  lemma SortedHead(a: seq<real>, y: real)
    requires Sorted(a) && y in multiset(a)
    ensures a[0] <= y
  {
    assert y in a;
  }

  lemma SortedTail(a: seq<real>)
    requires Sorted(a) && a != []
    ensures Sorted(a[1..])
  {
    forall i, j | 0 <= i < j < |a| - 1 ensures a[1..][i] <= a[1..][j] {
      assert a[1..][i] == a[i + 1] && a[1..][j] == a[j + 1];
    }
  }

  /** Two sorted sequences holding the same values are equal. */
  lemma {:induction false} SortedUnique(a: seq<real>, b: seq<real>)
    requires Sorted(a) && Sorted(b)
    requires multiset(a) == multiset(b)
    ensures a == b
  {
    assert |a| == |multiset(a)| == |multiset(b)| == |b|;
    if a != [] {
      var x, y := a[0], b[0];
      assert x in multiset(b) && y in multiset(a);
      SortedHead(a, y);
      SortedHead(b, x);
      assert x == y;
      var a', b' := a[1..], b[1..];
      assert a == [x] + a' && b == [x] + b';
      assert multiset(a') == multiset(a) - multiset{x};
      assert multiset(b') == multiset(b) - multiset{x};
      SortedTail(a);
      SortedTail(b);
      SortedUnique(a', b');
    }
  }

  /** The median does not depend on the order of the rows. */
  lemma MedianOrderIndependent(xs: seq<real>, ys: seq<real>)
    requires multiset(xs) == multiset(ys)
    ensures Median(xs) == Median(ys)
  {
    var sx, sy := Sort(xs), Sort(ys);
    SortedUnique(sx, sy);
    assert |xs| == |multiset(xs)| == |multiset(ys)| == |ys|;
  }
}

/** Float division as a DataFrame column does it. */
module Division {
  import opened Wrappers

  /** A non-NaN float: finite, or an infinity. */
  datatype Quotient = Finite(value: real) | PosInf | NegInf

  /** a / b on float columns: a nonzero number over zero is an infinity of its sign, and 0 / 0 is NaN (None). */
  function Divide(a: real, b: real): (q: Option<Quotient>)
    ensures q.None? <==> a == 0.0 && b == 0.0
    ensures q.Some? && q.value.Finite? ==> b != 0.0 && q.value.value * b == a
    ensures q == Some(PosInf) <==> b == 0.0 && a > 0.0
    ensures q == Some(NegInf) <==> b == 0.0 && a < 0.0
  {
    if b != 0.0 then Some(Finite(a / b))
    else if a > 0.0 then Some(PosInf)
    else if a < 0.0 then Some(NegInf)
    else None
  }

  /** Series.clip(lo, hi) of one non-NaN value. */
  function Clip(q: Quotient, lo: real, hi: real): (r: real)
    requires lo <= hi
    ensures lo <= r <= hi
    ensures q.Finite? && lo <= q.value <= hi ==> r == q.value
    ensures (q.Finite? && q.value < lo) || q.NegInf? ==> r == lo
    ensures (q.Finite? && q.value > hi) || q.PosInf? ==> r == hi
  {
    match q
    case Finite(x) => if x < lo then lo else if x > hi then hi else x
    case PosInf => hi
    case NegInf => lo
  }

  // ----- shares of a positive whole -----

  lemma ShareBounds(part: real, whole: real)
    requires 0.0 <= part <= whole && whole > 0.0
    ensures 0.0 <= part / whole <= 1.0
    ensures part > 0.0 ==> part / whole > 0.0
  {
  }

  lemma WholeShare(whole: real)
    requires whole > 0.0
    ensures whole / whole == 1.0
  {
  }

  lemma SharesAdd(a: real, b: real, whole: real)
    requires whole > 0.0
    ensures a / whole + b / whole == (a + b) / whole
  {
  }
}
