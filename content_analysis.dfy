/**
 * The calculations of analyze_content_performance (data_analysis.py): the
 * genre value counts of watch_summary, the top-5-plus-"Others" split of the
 * genre chart, and the shortening of movie titles for the bar chart labels.
 */
module ContentAnalysis {
  import opened Wrappers
  import opened Tables
  import opened Grouping

  /** A (label, count) entry of a Series of counts. */
  type Entry = (string, nat)

  function CountsOf(es: seq<Entry>): (col: seq<nat>)
    ensures |col| == |es| && forall i :: 0 <= i < |es| ==> col[i] == es[i].1
  {
    seq(|es|, i requires 0 <= i < |es| => es[i].1)
  }

  /** The total of the counts of `es`. */
  function Total(es: seq<Entry>): nat {
    SumNat(CountsOf(es))
  }

  lemma {:induction false} SumNatConcat(a: seq<nat>, b: seq<nat>)
    ensures SumNat(a + b) == SumNat(a) + SumNat(b)
  {
    if b == [] {
      assert a + b == a;
    } else {
      var b' := b[..|b| - 1];
      assert (a + b)[..|a + b| - 1] == a + b';
      SumNatConcat(a, b');
    }
  }

  /** Totals add up over a concatenation. */
  lemma TotalConcat(a: seq<Entry>, b: seq<Entry>)
    ensures Total(a + b) == Total(a) + Total(b)
  {
    assert CountsOf(a + b) == CountsOf(a) + CountsOf(b);
    SumNatConcat(CountsOf(a), CountsOf(b));
  }

  // ----- value_counts -----

  predicate NonIncreasing(es: seq<Entry>) {
    forall i, j :: 0 <= i < j < |es| ==> es[i].1 >= es[j].1
  }

  /** An entry whose count is no smaller than every count of a non-increasing sequence can go in front. */
  lemma NonIncreasingCons(y: Entry, t: seq<Entry>)
    requires NonIncreasing(t)
    requires forall i :: 0 <= i < |t| ==> y.1 >= t[i].1
    ensures NonIncreasing([y] + t)
  {
    var r := [y] + t;
    forall i, j | 0 <= i < j < |r| ensures r[i].1 >= r[j].1 {
      assert r[j] == t[j - 1];
      if i > 0 {
        assert r[i] == t[i - 1];
      }
    }
  }

  /** Places `x` in front of the first entry whose count is not larger. */
  function Insert(x: Entry, es: seq<Entry>): (r: seq<Entry>)
    requires NonIncreasing(es)
    ensures NonIncreasing(r)
    ensures multiset(r) == multiset(es) + multiset{x}
    ensures forall i :: 0 <= i < |r| ==> r[i] == x || r[i] in es
  {
    if es == [] then [x]
    else if x.1 >= es[0].1 then
      NonIncreasingCons(x, es);
      [x] + es
    else
      var t := Insert(x, es[1..]);
      assert es == [es[0]] + es[1..];
      assert forall i :: 0 <= i < |t| ==> es[0].1 >= t[i].1;
      NonIncreasingCons(es[0], t);
      assert multiset([es[0]] + t) == multiset{es[0]} + multiset(t);
      [es[0]] + t
  }

  /** sort_values(ascending=False) on the counts. */
  function SortByCount(es: seq<Entry>): (r: seq<Entry>)
    ensures NonIncreasing(r)
    ensures multiset(r) == multiset(es)
    ensures |r| == |es|
  {
    if es == [] then []
    else
      assert es == [es[0]] + es[1..];
      Insert(es[0], SortByCount(es[1..]))
  }

  /** The total of one more entry in front. */
  lemma TotalCons(x: Entry, es: seq<Entry>)
    ensures Total([x] + es) == x.1 + Total(es)
  {
    TotalConcat([x], es);
    assert CountsOf([x]) == [x.1];
    assert [x.1][..0] == [];
    assert SumNat([x.1]) == SumNat([]) + x.1;
  }

  lemma {:induction false} InsertTotal(x: Entry, es: seq<Entry>)
    requires NonIncreasing(es)
    ensures Total(Insert(x, es)) == Total(es) + x.1
  {
    if es == [] {
      TotalCons(x, es);
      assert [x] + es == [x];
    } else if x.1 >= es[0].1 {
      TotalCons(x, es);
    } else {
      var t := Insert(x, es[1..]);
      InsertTotal(x, es[1..]);
      assert es == [es[0]] + es[1..];
      TotalCons(es[0], es[1..]);
      TotalCons(es[0], t);
    }
  }

  /** Sorting keeps the total. */
  lemma {:induction false} SortTotal(es: seq<Entry>)
    ensures Total(SortByCount(es)) == Total(es)
  {
    if es != [] {
      SortTotal(es[1..]);
      InsertTotal(es[0], SortByCount(es[1..]));
      assert es == [es[0]] + es[1..];
      TotalCons(es[0], es[1..]);
    }
  }

  function GenreOf(s: SummaryRow): Option<string> { s.genre }

  /** The size of each genre group, in first-appearance order. */
  function GenreSizes(summary: seq<SummaryRow>): (es: seq<Entry>)
    ensures |es| == |GroupKeys(summary, GenreOf)|
    ensures forall i :: 0 <= i < |es| ==>
              es[i] == (GroupKeys(summary, GenreOf)[i], GroupSize(summary, GenreOf, GroupKeys(summary, GenreOf)[i]))
  {
    var keys := GroupKeys(summary, GenreOf);
    seq(|keys|, i requires 0 <= i < |keys| => (keys[i], GroupSize(summary, GenreOf, keys[i])))
  }

  /** genre_popularity = watch_summary['genre'].value_counts(). */
  function GenrePopularity(summary: seq<SummaryRow>): seq<Entry> {
    SortByCount(GenreSizes(summary))
  }

  /** Each value count is the number of rows of its genre, at least 1. */
  lemma GenrePopularityCounts(summary: seq<SummaryRow>, e: Entry)
    requires e in GenrePopularity(summary)
    ensures e.1 == GroupSize(summary, GenreOf, e.0) >= 1
  {
    var keys := GroupKeys(summary, GenreOf);
    var sizes := GenreSizes(summary);
    assert e in multiset(GenrePopularity(summary));
    assert e in multiset(sizes);
    var k :| 0 <= k < |sizes| && sizes[k] == e;
    GroupSizePositive(summary, GenreOf, keys[k]);
  }

  /** Every genre that occurs in some row has an entry in value_counts. */
  lemma GenrePopularityCovers(summary: seq<SummaryRow>, i: nat)
    requires i < |summary| && summary[i].genre.Some?
    ensures exists e :: e in GenrePopularity(summary) && e.0 == summary[i].genre.value
  {
    var keys := GroupKeys(summary, GenreOf);
    var sizes := GenreSizes(summary);
    var g := summary[i].genre.value;
    assert GenreOf(summary[i]) == Some(g);
    var k :| 0 <= k < |keys| && keys[k] == g;
    assert sizes[k] in multiset(GenrePopularity(summary));
    assert sizes[k] in GenrePopularity(summary);
  }

  /**
   * value_counts holds one entry per genre present, each with the number of
   * rows of that genre (at least 1), in non-increasing order of count.
   */
  lemma GenrePopularityEntries(summary: seq<SummaryRow>)
    ensures var vc := GenrePopularity(summary);
            && NonIncreasing(vc)
            && (forall e :: e in vc ==> e.1 == GroupSize(summary, GenreOf, e.0) >= 1)
            && (forall i :: 0 <= i < |summary| && summary[i].genre.Some? ==>
                  exists e :: e in vc && e.0 == summary[i].genre.value)
  {
    forall e | e in GenrePopularity(summary) ensures e.1 == GroupSize(summary, GenreOf, e.0) >= 1 {
      GenrePopularityCounts(summary, e);
    }
    forall i | 0 <= i < |summary| && summary[i].genre.Some?
      ensures exists e :: e in GenrePopularity(summary) && e.0 == summary[i].genre.value
    {
      GenrePopularityCovers(summary, i);
    }
  }

  /** No genre has two entries in value_counts. */
  lemma GenrePopularityDistinct(summary: seq<SummaryRow>)
    ensures var vc := GenrePopularity(summary);
            forall i, j :: 0 <= i < j < |vc| ==> vc[i].0 != vc[j].0
  {
    var sizes := GenreSizes(summary);
    var vc := GenrePopularity(summary);
    assert CountsKeys(sizes) == GroupKeys(summary, GenreOf);
    forall i, j | 0 <= i < j < |vc| ensures vc[i].0 != vc[j].0 {
      DistinctAfterSort(sizes, vc, i, j);
    }
  }

  /** Rows without a genre are not counted: the counts add up to the number of rows with one. */
  lemma GenrePopularityTotal(summary: seq<SummaryRow>)
    ensures Total(GenrePopularity(summary)) == |PresentKeys(summary, GenreOf)|
  {
    var keys := GroupKeys(summary, GenreOf);
    var sizes := GenreSizes(summary);
    SortTotal(sizes);
    assert CountsOf(sizes) == SizeColumn(keys, summary, GenreOf);
    SizeColumnSum(keys, summary, GenreOf);
    GroupSizesAddUp(summary, GenreOf);
  }

  /** The ith and jth value counts are different genres: each genre has one entry among the sizes. */
  lemma DistinctAfterSort(sizes: seq<Entry>, vc: seq<Entry>, i: nat, j: nat)
    requires multiset(vc) == multiset(sizes)
    requires NoDuplicates(CountsKeys(sizes))
    requires i < j < |vc|
    ensures vc[i].0 != vc[j].0
  {
    assert vc[i] in multiset(sizes) && vc[j] in multiset(sizes);
    var a :| 0 <= a < |sizes| && sizes[a] == vc[i];
    var b :| 0 <= b < |sizes| && sizes[b] == vc[j];
    if a == b {
      MultiplicityOfPosition(vc, i, j);
      MultiplicityOfDistinct(sizes, a);
    } else {
      assert CountsKeys(sizes)[a] != CountsKeys(sizes)[b];
    }
  }

  function CountsKeys(es: seq<Entry>): (ks: seq<string>)
    ensures |ks| == |es| && forall i :: 0 <= i < |es| ==> ks[i] == es[i].0
  {
    seq(|es|, i requires 0 <= i < |es| => es[i].0)
  }

  /** Two equal positions give an element multiplicity at least 2. */
  lemma MultiplicityOfPosition<T>(s: seq<T>, i: nat, j: nat)
    requires i < j < |s| && s[i] == s[j]
    ensures multiset(s)[s[i]] >= 2
  {
    assert s == s[..i] + [s[i]] + s[i + 1..j] + [s[j]] + s[j + 1..];
  }

  /** In a sequence with distinct keys, each element occurs once. */
  lemma {:induction false} MultiplicityOfDistinct(s: seq<Entry>, a: nat)
    requires NoDuplicates(CountsKeys(s)) && a < |s|
    ensures multiset(s)[s[a]] == 1
  {
    var x := s[a];
    assert s == s[..a] + [x] + s[a + 1..];
    assert forall k :: 0 <= k < |s| && k != a ==> s[k] != x by {
      forall k | 0 <= k < |s| && k != a ensures s[k] != x {
        assert CountsKeys(s)[k] != CountsKeys(s)[a];
      }
    }
    NotIn(s[..a], x);
    NotIn(s[a + 1..], x);
  }

  lemma NotIn<T>(s: seq<T>, x: T)
    requires forall k :: 0 <= k < |s| ==> s[k] != x
    ensures multiset(s)[x] == 0
  {
  }

  // ----- top 5 and "Others" -----

  const Others := "Others"
  const TopCount: nat := 5

  /** genre_popularity.iloc[5:].sum(): the total after the first five entries. */
  function OthersCount(vc: seq<Entry>): (n: nat)
    ensures |vc| <= TopCount ==> n == 0
    ensures |vc| > TopCount ==> n == Total(vc[TopCount..])
  {
    if |vc| <= TopCount then 0 else Total(vc[TopCount..])
  }

  /** genre_popularity.head(5). */
  function Head(vc: seq<Entry>): (h: seq<Entry>)
    ensures |h| == if |vc| < TopCount then |vc| else TopCount
    ensures h == vc[..|h|]
  {
    if |vc| <= TopCount then vc else vc[..TopCount]
  }

  /** The count under label `name` in a dict-like sequence of entries (its first entry). */
  function Get(d: seq<Entry>, name: string): (r: Option<nat>)
    ensures r.None? <==> forall i :: 0 <= i < |d| ==> d[i].0 != name
  {
    if d == [] then None
    else if d[0].0 == name then Some(d[0].1)
    else Get(d[1..], name)
  }

  /** `{**d, name: n}`: overwrites the entry of `name` in place, or appends one. */
  function SetEntry(d: seq<Entry>, name: string, n: nat): (r: seq<Entry>)
    ensures Get(d, name).None? ==> r == d + [(name, n)]
  {
    if d == [] then [(name, n)]
    else if d[0].0 == name then [(name, n)] + d[1..]
    else [d[0]] + SetEntry(d[1..], name, n)
  }

  /** Dict update semantics of SetEntry: the new label maps to `n`, every other label is untouched. */
  lemma {:induction false} SetEntryGet(d: seq<Entry>, name: string, n: nat, other: string)
    ensures Get(SetEntry(d, name, n), name) == Some(n)
    ensures other != name ==> Get(SetEntry(d, name, n), other) == Get(d, other)
  {
    if d != [] && d[0].0 != name {
      SetEntryGet(d[1..], name, n, other);
    }
  }

  /** The slices of the genre pie chart: the top five, plus an "Others" slice when the rest is nonzero. */
  function PieSlices(vc: seq<Entry>): seq<Entry> {
    var others := OthersCount(vc);
    if others > 0 then SetEntry(Head(vc), Others, others) else Head(vc)
  }

  /**
   * Unless one of the top five genres is itself called "Others" (whose count
   * the merged dict would overwrite), the pie conserves the total: its slices
   * add up to all counts.
   */
  lemma PieConservesTotal(vc: seq<Entry>)
    requires Get(Head(vc), Others).None?
    ensures Total(PieSlices(vc)) == Total(vc)
  {
    var h := Head(vc);
    if |vc| > TopCount {
      var n := OthersCount(vc);
      assert vc == h + vc[TopCount..];
      TotalConcat(h, vc[TopCount..]);
      TotalConcat(h, [(Others, n)]);
      TotalCons((Others, n), []);
      assert [(Others, n)] + [] == [(Others, n)];
    }
  }

  /** The pie has at most six slices, and its first five are the top five genres when none of them is "Others". */
  lemma PieShape(vc: seq<Entry>)
    ensures |PieSlices(vc)| <= TopCount + 1
    ensures Get(Head(vc), Others).None? ==> PieSlices(vc)[..|Head(vc)|] == Head(vc)
  {
    SetEntryLength(Head(vc), Others, OthersCount(vc));
  }

  lemma {:induction false} SetEntryLength(d: seq<Entry>, name: string, n: nat)
    ensures |SetEntry(d, name, n)| <= |d| + 1
  {
    if d != [] && d[0].0 != name {
      SetEntryLength(d[1..], name, n);
    }
  }

  /**
   * On value counts (every count at least 1) the "Others" slice is added
   * exactly when there are more than five genres, and then holds the total of
   * the genres after the fifth.
   */
  lemma OthersSliceWhenMoreThanFive(vc: seq<Entry>)
    requires forall e :: e in vc ==> e.1 >= 1
    ensures Get(PieSlices(vc), Others).Some? <==> |vc| > TopCount || Get(Head(vc), Others).Some?
    ensures |vc| > TopCount ==> Get(PieSlices(vc), Others) == Some(Total(vc[TopCount..]))
  {
    var h := Head(vc);
    SetEntryGet(h, Others, OthersCount(vc), Others);
    if |vc| > TopCount {
      var tail := vc[TopCount..];
      assert tail == [tail[0]] + tail[1..];
      TotalConcat([tail[0]], tail[1..]);
      assert tail[0] in vc;
    }
  }

  // ----- chart labels -----

  /** The short_title of a movie: unchanged below 15 characters, otherwise the first 12 and "...". */
  function ShortTitle(title: string): (r: string)
    ensures |title| < 15 ==> r == title
    ensures |title| >= 15 ==> r == title[..12] + "..."
    ensures |r| <= 15
  {
    if |title| < 15 then title else title[..12] + "..."
  }

  /** Shortening is idempotent, and a shortened title starts like the original. */
  lemma ShortTitleStable(title: string)
    ensures ShortTitle(ShortTitle(title)) == ShortTitle(title)
    ensures |ShortTitle(title)| < 15 ==> ShortTitle(title) == title
    ensures |ShortTitle(title)| >= 12 ==> ShortTitle(title)[..12] == title[..12]
  {
    if |title| >= 15 {
      var r := title[..12] + "...";
      assert |r| == 15;
      assert r[..12] == title[..12];
    }
  }
}
