/**
 * The stickiness calculation of analyze_user_activity (data_analysis.py):
 * the mean daily active users of each ISO week, inner-joined with the weekly
 * active users, as a DAU/WAU ratio, and the mean of that ratio.
 */
module ActivityAnalysis {
  import opened Wrappers
  import opened Tables
  import opened Division
  import opened Grouping
  import Transform

  /** The ISO (year, week) of a daily_active_users row. */
  function DauWeek(isoWeek: Day -> IsoWeek): DauRow -> Option<IsoWeek> {
    (d: DauRow) => Some(isoWeek(d.date))
  }

  function DauCount(d: DauRow): real { d.dailyActiveUsers as real }

  /** A row of avg_dau_per_week. */
  datatype WeekAverage = WeekAverage(week: IsoWeek, dailyActiveUsers: real)

  /** The mean daily active users of week `w`, which has at least one day. */
  function WeekMean(dau: seq<DauRow>, isoWeek: Day -> IsoWeek, w: IsoWeek): (a: WeekAverage)
    requires w in GroupKeys(dau, DauWeek(isoWeek))
    ensures a.week == w
    ensures GroupSize(dau, DauWeek(isoWeek), w) > 0
    ensures a.dailyActiveUsers == GroupSum(dau, DauWeek(isoWeek), DauCount, w) / GroupSize(dau, DauWeek(isoWeek), w) as real
  {
    GroupSizePositive(dau, DauWeek(isoWeek), w);
    var n := GroupSize(dau, DauWeek(isoWeek), w) as real;
    WeekAverage(w, GroupSum(dau, DauWeek(isoWeek), DauCount, w) / n)
  }

  /** avg_dau_per_week: dau.groupby(['year', 'week'])['daily_active_users'].mean(). */
  function AvgDauPerWeek(dau: seq<DauRow>, isoWeek: Day -> IsoWeek): (r: seq<WeekAverage>)
    ensures |r| == |GroupKeys(dau, DauWeek(isoWeek))|
    ensures forall i :: 0 <= i < |r| ==> r[i] == WeekMean(dau, isoWeek, GroupKeys(dau, DauWeek(isoWeek))[i])
  {
    var weeks := GroupKeys(dau, DauWeek(isoWeek));
    seq(|weeks|, i requires 0 <= i < |weeks| => WeekMean(dau, isoWeek, weeks[i]))
  }

  /** A week's mean is no larger than the largest daily count of that week. */
  lemma WeekMeanWithin(dau: seq<DauRow>, isoWeek: Day -> IsoWeek, w: IsoWeek, hi: real)
    requires w in GroupKeys(dau, DauWeek(isoWeek))
    requires forall i :: 0 <= i < |dau| && isoWeek(dau[i].date) == w ==> DauCount(dau[i]) <= hi
    ensures 0.0 <= WeekMean(dau, isoWeek, w).dailyActiveUsers <= hi
  {
    var key := DauWeek(isoWeek);
    forall i | 0 <= i < |dau| && key(dau[i]) == Some(w) ensures 0.0 <= DauCount(dau[i]) <= hi {
      assert isoWeek(dau[i].date) == w;
    }
    var m := WeekMean(dau, isoWeek, w);
    GroupMeanWithin(dau, key, DauCount, w, hi);
  }

  /** A row of the stickiness table. */
  datatype StickinessRow = StickinessRow(year: int, week: int, dailyActiveUsers: real, weeklyActiveUsers: nat,
                                         stickiness: Option<Quotient>)

  function AverageKey(a: WeekAverage): IsoWeek { a.week }
  function WauKey(w: WauRow): IsoWeek { IsoWeek(w.year, w.week) }

  /** One joined row, with stickiness = daily_active_users / weekly_active_users. */
  function Stick(a: WeekAverage, w: WauRow): StickinessRow {
    StickinessRow(a.week.year, a.week.week, a.dailyActiveUsers, w.weeklyActiveUsers,
                  Divide(a.dailyActiveUsers, w.weeklyActiveUsers as real))
  }

  /** The stickiness table: pd.merge(avg_dau_per_week, wau, on=['year', 'week'], how='inner'). */
  function Stickiness(dau: seq<DauRow>, wau: seq<WauRow>, isoWeek: Day -> IsoWeek): seq<StickinessRow> {
    InnerJoin(AvgDauPerWeek(dau, isoWeek), wau, AverageKey, WauKey, Stick)
  }

  /**
   * A stickiness row exists exactly for a week present both among the DAU
   * weeks and in the WAU table, and holds that week's mean DAU over its WAU.
   */
  lemma StickinessRows(dau: seq<DauRow>, wau: seq<WauRow>, isoWeek: Day -> IsoWeek)
    ensures forall s :: s in Stickiness(dau, wau, isoWeek) ==>
              exists i, m :: 0 <= i < |dau| && m in wau
                && isoWeek(dau[i].date) == IsoWeek(s.year, s.week) == WauKey(m)
                && s.dailyActiveUsers == WeekMean(dau, isoWeek, IsoWeek(s.year, s.week)).dailyActiveUsers
                && s.weeklyActiveUsers == m.weeklyActiveUsers
                && s.stickiness == Divide(s.dailyActiveUsers, s.weeklyActiveUsers as real)
    ensures forall i, m :: 0 <= i < |dau| && m in wau && isoWeek(dau[i].date) == WauKey(m) ==>
              Stick(WeekMean(dau, isoWeek, WauKey(m)), m) in Stickiness(dau, wau, isoWeek)
  {
    var avg := AvgDauPerWeek(dau, isoWeek);
    var weeks := GroupKeys(dau, DauWeek(isoWeek));
    InnerJoinRows(avg, wau, AverageKey, WauKey, Stick);
    forall s | s in Stickiness(dau, wau, isoWeek)
      ensures exists i, m :: 0 <= i < |dau| && m in wau
                && isoWeek(dau[i].date) == IsoWeek(s.year, s.week) == WauKey(m)
                && s.dailyActiveUsers == WeekMean(dau, isoWeek, IsoWeek(s.year, s.week)).dailyActiveUsers
                && s.weeklyActiveUsers == m.weeklyActiveUsers
                && s.stickiness == Divide(s.dailyActiveUsers, s.weeklyActiveUsers as real)
    {
      var l, m :| l in avg && m in wau && AverageKey(l) == WauKey(m) && s == Stick(l, m);
      var k :| 0 <= k < |avg| && avg[k] == l;
      assert weeks[k] in weeks;
      var i :| 0 <= i < |dau| && DauWeek(isoWeek)(dau[i]) == Some(weeks[k]);
    }
    forall i, m | 0 <= i < |dau| && m in wau && isoWeek(dau[i].date) == WauKey(m)
      ensures Stick(WeekMean(dau, isoWeek, WauKey(m)), m) in Stickiness(dau, wau, isoWeek)
    {
      assert DauWeek(isoWeek)(dau[i]) == Some(WauKey(m));
      var k :| 0 <= k < |weeks| && weeks[k] == WauKey(m);
      assert avg[k] in avg;
    }
  }

  /** The DAU/WAU ratio of a mean that does not exceed the WAU. */
  lemma RatioOfBoundedMean(a: real, wau: nat)
    requires 0.0 <= a <= wau as real
    ensures wau > 0 ==> Divide(a, wau as real).Some? && Divide(a, wau as real).value.Finite?
                        && 0.0 <= Divide(a, wau as real).value.value <= 1.0
    ensures wau == 0 ==> Divide(a, wau as real).None?
  {
    if wau > 0 {
      ShareBounds(a, wau as real);
    }
  }

  /** No week's mean DAU exceeds the week's WAU in the tables the pipeline builds. */
  lemma PipelineWeekMeanAtMostWau(full: seq<FullRow>, isoWeek: Day -> IsoWeek, k: nat, j: nat)
    requires k < |AvgDauPerWeek(Transform.DailyActiveUsers(full), isoWeek)|
    requires j < |Transform.WeeklyActiveUsers(full, isoWeek)|
    requires AvgDauPerWeek(Transform.DailyActiveUsers(full), isoWeek)[k].week
             == WauKey(Transform.WeeklyActiveUsers(full, isoWeek)[j])
    ensures 0.0 <= AvgDauPerWeek(Transform.DailyActiveUsers(full), isoWeek)[k].dailyActiveUsers
                <= Transform.WeeklyActiveUsers(full, isoWeek)[j].weeklyActiveUsers as real
  {
    var dau := Transform.DailyActiveUsers(full);
    var wau := Transform.WeeklyActiveUsers(full, isoWeek);
    var w := GroupKeys(dau, DauWeek(isoWeek))[k];
    var wk := GroupKeys(full, Transform.RowWeek(isoWeek))[j];
    assert wau[j] == WauRow(wk.year, wk.week, Transform.WeeklyUsers(full, isoWeek, wk));
    assert wk == w;
    var hi := Transform.WeeklyUsers(full, isoWeek, w);
    forall i | 0 <= i < |dau| && isoWeek(dau[i].date) == w ensures DauCount(dau[i]) <= hi as real {
      Transform.DauBounds(full, isoWeek);
      assert dau[i].dailyActiveUsers <= Transform.WeeklyUsers(full, isoWeek, isoWeek(dau[i].date));
    }
    WeekMeanWithin(dau, isoWeek, w, hi as real);
  }

  /**
   * Over the tables the pipeline builds, a week's stickiness is a ratio in
   * [0, 1] whenever the week has an active user, and NaN (0 / 0) otherwise:
   * no day of a week has more distinct users than the whole week.
   */
  lemma StickinessOfPipelineAtMostOne(full: seq<FullRow>, isoWeek: Day -> IsoWeek)
    ensures var sticky := Stickiness(Transform.DailyActiveUsers(full), Transform.WeeklyActiveUsers(full, isoWeek), isoWeek);
            forall s :: s in sticky ==>
              && (s.weeklyActiveUsers > 0 ==> s.stickiness.Some? && s.stickiness.value.Finite?
                                              && 0.0 <= s.stickiness.value.value <= 1.0)
              && (s.weeklyActiveUsers == 0 ==> s.stickiness.None?)
  {
    var dau := Transform.DailyActiveUsers(full);
    var wau := Transform.WeeklyActiveUsers(full, isoWeek);
    var sticky := Stickiness(dau, wau, isoWeek);
    var avg := AvgDauPerWeek(dau, isoWeek);
    InnerJoinRows(avg, wau, AverageKey, WauKey, Stick);
    forall s | s in sticky
      ensures s.weeklyActiveUsers > 0 ==> s.stickiness.Some? && s.stickiness.value.Finite?
                                          && 0.0 <= s.stickiness.value.value <= 1.0
      ensures s.weeklyActiveUsers == 0 ==> s.stickiness.None?
    {
      var l, m :| l in avg && m in wau && AverageKey(l) == WauKey(m) && s == Stick(l, m);
      var k :| 0 <= k < |avg| && avg[k] == l;
      var j :| 0 <= j < |wau| && wau[j] == m;
      PipelineWeekMeanAtMostWau(full, isoWeek, k, j);
      RatioOfBoundedMean(l.dailyActiveUsers, m.weeklyActiveUsers);
    }
  }

  // ----- avg_stickiness -----

  /** The non-NaN values of a float column. */
  function Present(xs: seq<Option<Quotient>>): (r: seq<Quotient>)
    ensures |r| <= |xs|
    ensures forall q :: q in r <==> Some(q) in xs
  {
    if xs == [] then []
    else
      var rest := Present(xs[..|xs| - 1]);
      assert xs == xs[..|xs| - 1] + [xs[|xs| - 1]];
      if xs[|xs| - 1].Some? then rest + [xs[|xs| - 1].value] else rest
  }

  /** The sum of the finite values. */
  function FiniteSum(qs: seq<Quotient>): real {
    if qs == [] then 0.0
    else FiniteSum(qs[..|qs| - 1]) + (if qs[|qs| - 1].Finite? then qs[|qs| - 1].value else 0.0)
  }

  /**
   * Series.mean(): NaN values are skipped; an empty column, or one holding both
   * infinities, has a NaN mean; a single kind of infinity wins; otherwise the
   * arithmetic mean.
   */
  function Mean(xs: seq<Option<Quotient>>): (m: Option<Quotient>)
    ensures m.None? <==> Present(xs) == [] || (PosInf in Present(xs) && NegInf in Present(xs))
    ensures m == Some(PosInf) <==> PosInf in Present(xs) && NegInf !in Present(xs)
    ensures m == Some(NegInf) <==> NegInf in Present(xs) && PosInf !in Present(xs)
  {
    var qs := Present(xs);
    if qs == [] then None
    else if PosInf in qs && NegInf in qs then None
    else if PosInf in qs then Some(PosInf)
    else if NegInf in qs then Some(NegInf)
    else Some(Finite(FiniteSum(qs) / |qs| as real))
  }

  lemma {:induction false} FiniteSumBounds(qs: seq<Quotient>, hi: real)
    requires forall q :: q in qs ==> q.Finite? && 0.0 <= q.value <= hi
    ensures 0.0 <= FiniteSum(qs) <= |qs| as real * hi
  {
    if qs != [] {
      var p := qs[..|qs| - 1];
      assert forall q :: q in p ==> q in qs;
      FiniteSumBounds(p, hi);
      assert qs[|qs| - 1] in qs;
      StepBound(|p| as real, FiniteSum(p), qs[|qs| - 1].value, hi);
    }
  }

  lemma FiniteMeanBound(qs: seq<Quotient>, hi: real)
    requires qs != [] && forall q :: q in qs ==> q.Finite? && 0.0 <= q.value <= hi
    ensures 0.0 <= FiniteSum(qs) / |qs| as real <= hi
  {
    FiniteSumBounds(qs, hi);
    MeanBound(FiniteSum(qs), |qs| as real, hi);
  }

  /** The mean of values that all lie in [0, hi] lies in [0, hi]. */
  lemma MeanWithin(xs: seq<Option<Quotient>>, hi: real)
    requires forall q :: Some(q) in xs ==> q.Finite? && 0.0 <= q.value <= hi
    requires Present(xs) != []
    ensures Mean(xs).Some? && Mean(xs).value.Finite?
    ensures 0.0 <= Mean(xs).value.value <= hi
  {
    var qs := Present(xs);
    assert forall q :: q in qs ==> q.Finite? && 0.0 <= q.value <= hi;
    assert PosInf !in qs && NegInf !in qs;
    FiniteMeanBound(qs, hi);
  }

  function StickinessColumn(rows: seq<StickinessRow>): (col: seq<Option<Quotient>>)
    ensures |col| == |rows| && forall i :: 0 <= i < |rows| ==> col[i] == rows[i].stickiness
  {
    seq(|rows|, i requires 0 <= i < |rows| => rows[i].stickiness)
  }

  /** avg_stickiness = stickiness['stickiness'].mean(). */
  function AverageStickiness(rows: seq<StickinessRow>): Option<Quotient> {
    Mean(StickinessColumn(rows))
  }

  /** Over the pipeline's tables the average stickiness is NaN or a ratio in [0, 1]. */
  lemma AverageStickinessOfPipeline(full: seq<FullRow>, isoWeek: Day -> IsoWeek)
    ensures var avg := AverageStickiness(Stickiness(Transform.DailyActiveUsers(full),
                                                    Transform.WeeklyActiveUsers(full, isoWeek), isoWeek));
            avg.Some? ==> avg.value.Finite? && 0.0 <= avg.value.value <= 1.0
  {
    var sticky := Stickiness(Transform.DailyActiveUsers(full), Transform.WeeklyActiveUsers(full, isoWeek), isoWeek);
    var col := StickinessColumn(sticky);
    StickinessOfPipelineAtMostOne(full, isoWeek);
    forall q: Quotient | Some(q) in col ensures q.Finite? && 0.0 <= q.value <= 1.0 {
      var i :| 0 <= i < |col| && col[i] == Some(q);
      assert sticky[i] in sticky;
    }
    if Present(col) != [] {
      MeanWithin(col, 1.0);
    }
  }
}
