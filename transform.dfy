/**
 * transform_data (etl_pipeline.py): the two left merges, the completion
 * ratio, per-user engagement, genre popularity per country, and daily and
 * weekly active users. "Now" and the ISO calendar are parameters.
 */
module Transform {
  import opened Wrappers
  import opened Tables
  import opened Division
  import opened Grouping

  // ----- step 1: joins -----

  function LogMovieKey(w: WatchRow): Option<Id> { w.movieId }
  function MovieKey(m: MovieRow): Id { m.movieId }
  function LogUserKey(e: EnrichedRow): Option<Id> { e.watch.userId }
  function UserKey(u: UserRow): Id { u.userId }

  /** One merged row: the movie's columns, or missing ones when no movie matched. */
  function WithMovie(w: WatchRow, m: Option<MovieRow>): (e: EnrichedRow)
    ensures e.watch == w
    ensures m.None? ==> e.title.None? && e.genre.None? && e.duration.None? && e.releaseYear.None?
    ensures m.Some? ==> e.title == m.value.title && e.genre == m.value.genre
                        && e.duration == m.value.duration && e.releaseYear == m.value.releaseYear
  {
    match m
    case Some(mv) => EnrichedRow(w, mv.title, mv.genre, mv.duration, mv.releaseYear)
    case None => EnrichedRow(w, None, None, None, None)
  }

  /** One merged row: the user's columns, or missing ones when no user matched. */
  function WithUser(e: EnrichedRow, u: Option<UserRow>): (r: FullRow)
    ensures r.log == e
    ensures u.None? ==> r.name.None? && r.signupDay.None? && r.country.None? && r.ageGroup.None?
    ensures u.Some? ==> r.name == u.value.name && r.signupDay == u.value.signupDay
                        && r.country == u.value.country && r.ageGroup == u.value.ageGroup
  {
    match u
    case Some(us) => FullRow(e, us.name, us.signupDay, us.country, us.ageGroup)
    case None => FullRow(e, None, None, None, None)
  }

  /** pd.merge(watch_logs, movies, on='movie_id', how='left'). */
  function JoinMovies(logs: seq<WatchRow>, movies: seq<MovieRow>): seq<EnrichedRow> {
    LeftJoin(logs, movies, LogMovieKey, MovieKey, WithMovie)
  }

  /** pd.merge(enriched_logs, users, on='user_id', how='left'). */
  function JoinUsers(enriched: seq<EnrichedRow>, users: seq<UserRow>): seq<FullRow> {
    LeftJoin(enriched, users, LogUserKey, UserKey, WithUser)
  }

  /** full_data: watch logs left-joined to movies, then to users. */
  function FullData(logs: seq<WatchRow>, movies: seq<MovieRow>, users: seq<UserRow>): (full: seq<FullRow>)
    ensures |full| >= |logs|
  {
    var enriched := JoinMovies(logs, movies);
    JoinUsers(enriched, users)
  }

  /**
   * Row preservation of the joins: with movie_id unique among movies and
   * user_id unique among users, full_data has exactly one row per watch row,
   * in order, carrying that row's watch fields, the looked-up movie's and
   * user's columns, and missing columns where nothing matched.
   */
  lemma FullDataRows(logs: seq<WatchRow>, movies: seq<MovieRow>, users: seq<UserRow>)
    requires UniqueKeys(movies, MovieKey) && UniqueKeys(users, UserKey)
    ensures |FullData(logs, movies, users)| == |logs|
    ensures forall i :: 0 <= i < |logs| ==>
              FullData(logs, movies, users)[i]
                == WithUser(WithMovie(logs[i], Lookup(movies, MovieKey, logs[i].movieId)),
                            Lookup(users, UserKey, logs[i].userId))
  {
    var enriched := JoinMovies(logs, movies);
    LeftJoinUnique(logs, movies, LogMovieKey, MovieKey, WithMovie);
    LeftJoinUnique(enriched, users, LogUserKey, UserKey, WithUser);
  }

  // ----- steps 2 and 3: completion and watch_summary -----

  /** (watch_time / duration).clip(0, 1) at one row; None is NaN. */
  function Completion(watchTime: Option<real>, duration: Option<real>): (c: Option<real>)
    ensures c.Some? ==> 0.0 <= c.value <= 1.0
    ensures c.Some? <==> watchTime.Some? && duration.Some? && !(watchTime.value == 0.0 && duration.value == 0.0)
    ensures watchTime.Some? && duration.Some? && duration.value != 0.0 ==>
              var q := watchTime.value / duration.value;
              c == Some(if q < 0.0 then 0.0 else if q > 1.0 then 1.0 else q)
    ensures watchTime.Some? && duration == Some(0.0) && watchTime.value > 0.0 ==> c == Some(1.0)
    ensures watchTime.Some? && duration == Some(0.0) && watchTime.value < 0.0 ==> c == Some(0.0)
  {
    if watchTime.None? || duration.None? then None
    else
      match Divide(watchTime.value, duration.value)
      case None => None
      case Some(q) => Some(Clip(q, 0.0, 1.0))
  }

  /** The watch_summary columns of a full_data row, with watch_completion added. */
  function Summarize(r: FullRow): (s: SummaryRow)
    ensures s.userId == r.log.watch.userId && s.movieId == r.log.watch.movieId
    ensures s.title == r.log.title && s.genre == r.log.genre && s.duration == r.log.duration
    ensures s.watchTime == r.log.watch.watchTime && s.device == r.log.watch.device && s.day == r.log.watch.day
    ensures s.watchCompletion == Completion(r.log.watch.watchTime, r.log.duration)
  {
    SummaryRow(r.log.watch.userId, r.log.watch.movieId, r.log.title, r.log.genre, r.log.watch.watchTime,
               r.log.duration, Completion(r.log.watch.watchTime, r.log.duration), r.log.watch.device,
               r.log.watch.day)
  }

  /** watch_summary: one row per full_data row. */
  function WatchSummary(full: seq<FullRow>): (s: seq<SummaryRow>)
    ensures |s| == |full|
    ensures forall i :: 0 <= i < |full| ==> s[i] == Summarize(full[i])
  {
    seq(|full|, i requires 0 <= i < |full| => Summarize(full[i]))
  }

  // ----- step 4: user engagement -----

  function RowUser(r: FullRow): Option<Id> { r.UserId() }

  /** A row's contribution to groupby('user_id')['watch_time'].sum(), which skips NaN. */
  function RowWatchTime(r: FullRow): real { r.log.watch.watchTime.GetOr(0.0) }

  /**
   * One row of the outer merge of the per-user sum and per-user size. Both
   * aggregates have exactly the groupby keys, so the merge pairs them one to one.
   */
  datatype UserTotals = UserTotals(userId: Id, watchTime: real, watchCount: nat)

  function TotalsKey(t: UserTotals): Option<Id> { Some(t.userId) }

  /** The merged per-user aggregates. */
  function UserTotalsTable(full: seq<FullRow>): (t: seq<UserTotals>)
    ensures |t| == |GroupKeys(full, RowUser)|
    ensures forall i :: 0 <= i < |t| ==>
              t[i] == UserTotals(GroupKeys(full, RowUser)[i],
                                 GroupSum(full, RowUser, RowWatchTime, GroupKeys(full, RowUser)[i]),
                                 GroupSize(full, RowUser, GroupKeys(full, RowUser)[i]))
  {
    var keys := GroupKeys(full, RowUser);
    seq(|keys|, i requires 0 <= i < |keys| =>
      UserTotals(keys[i], GroupSum(full, RowUser, RowWatchTime, keys[i]), GroupSize(full, RowUser, keys[i])))
  }

  /** (now - signup_date).dt.days with day numbers; missing when the signup date is. */
  function DaysSinceSignup(now: Day, signup: Option<Day>): (d: Option<int>)
    ensures d.Some? <==> signup.Some?
    ensures d.Some? ==> signup.value + d.value == now
  {
    if signup.Some? then Some(now - signup.value) else None
  }

  /** watch_time / days_since_signup, then fillna(0): NaN becomes 0, an infinity stays. */
  function AvgDailyWatch(watchTime: real, days: Option<int>): (a: Quotient)
    ensures days.None? ==> a == Finite(0.0)
    ensures days.Some? && days.value != 0 ==> a == Finite(watchTime / days.value as real)
    ensures days == Some(0) ==> a == (if watchTime > 0.0 then PosInf else if watchTime < 0.0 then NegInf else Finite(0.0))
  {
    match days
    case None => Finite(0.0)
    case Some(d) => Divide(watchTime, d as real).GetOr(Finite(0.0))
  }

  /**
   * pd.cut(avg, bins=[0, 30, 120, inf], labels=['Light', 'Medium', 'Heavy']):
   * right-closed bins (0, 30], (30, 120], (120, inf]; 0, negatives and -inf get no level.
   */
  function EngagementLevel(a: Quotient): (l: Option<Level>)
    ensures l == Some(Light) <==> a.Finite? && 0.0 < a.value <= 30.0
    ensures l == Some(Medium) <==> a.Finite? && 30.0 < a.value <= 120.0
    ensures l == Some(Heavy) <==> (a.Finite? && a.value > 120.0) || a.PosInf?
    ensures l.None? <==> (a.Finite? && a.value <= 0.0) || a.NegInf?
  {
    match a
    case Finite(x) =>
      if x <= 0.0 then None
      else if x <= 30.0 then Some(Light)
      else if x <= 120.0 then Some(Medium)
      else Some(Heavy)
    case PosInf => Some(Heavy)
    case NegInf => None
  }

  /** A user_engagement row: the aggregates, the user's columns (missing if unmatched), and the added columns. */
  function Engage(now: Day, t: UserTotals, u: Option<UserRow>): (e: EngagementRow)
    ensures e.userId == t.userId && e.watchTime == t.watchTime && e.watchCount == t.watchCount
    ensures u.Some? ==> e.name == u.value.name && e.country == u.value.country
                        && e.ageGroup == u.value.ageGroup && e.signupDay == u.value.signupDay
    ensures u.None? ==> e.name.None? && e.country.None? && e.ageGroup.None? && e.signupDay.None?
    ensures e.daysSinceSignup == DaysSinceSignup(now, e.signupDay)
    ensures e.avgDailyWatch == AvgDailyWatch(e.watchTime, e.daysSinceSignup)
    ensures e.engagementLevel == EngagementLevel(e.avgDailyWatch)
  {
    var signup := if u.Some? then u.value.signupDay else None;
    var days := DaysSinceSignup(now, signup);
    var avg := AvgDailyWatch(t.watchTime, days);
    EngagementRow(t.userId, t.watchTime, t.watchCount,
                  if u.Some? then u.value.name else None,
                  if u.Some? then u.value.country else None,
                  if u.Some? then u.value.ageGroup else None,
                  signup, days, avg, EngagementLevel(avg))
  }

  function EngageAt(now: Day): (UserTotals, Option<UserRow>) -> EngagementRow {
    (t: UserTotals, u: Option<UserRow>) => Engage(now, t, u)
  }

  /** user_engagement: the per-user aggregates left-joined to users, with the derived columns. */
  function UserEngagement(full: seq<FullRow>, users: seq<UserRow>, now: Day): seq<EngagementRow> {
    LeftJoin(UserTotalsTable(full), users, TotalsKey, UserKey, EngageAt(now))
  }

  /** The watch_count column of user_engagement (TrendCounts is the same column of genre_trends). */
  function WatchCounts(rows: seq<EngagementRow>): (col: seq<nat>)
    ensures |col| == |rows| && forall i :: 0 <= i < |rows| ==> col[i] == rows[i].watchCount
  {
    seq(|rows|, i requires 0 <= i < |rows| => rows[i].watchCount)
  }

  function WatchTimes(rows: seq<EngagementRow>): (col: seq<real>)
    ensures |col| == |rows| && forall i :: 0 <= i < |rows| ==> col[i] == rows[i].watchTime
  {
    seq(|rows|, i requires 0 <= i < |rows| => rows[i].watchTime)
  }

  /**
   * The rows of user_engagement, with user_id unique among users: one row per
   * distinct present user_id of full_data, holding that user's row count
   * (at least 1: only users who watched appear) and summed watch time.
   */
  lemma EngagementRows(full: seq<FullRow>, users: seq<UserRow>, now: Day)
    requires UniqueKeys(users, UserKey)
    ensures var e := UserEngagement(full, users, now);
            && |e| == |GroupKeys(full, RowUser)|
            && forall i :: 0 <= i < |e| ==>
                 && e[i].userId == GroupKeys(full, RowUser)[i]
                 && e[i].watchCount == GroupSize(full, RowUser, e[i].userId) >= 1
                 && e[i].watchTime == GroupSum(full, RowUser, RowWatchTime, e[i].userId)
  {
    var t := UserTotalsTable(full);
    LeftJoinUnique(t, users, TotalsKey, UserKey, EngageAt(now));
    var keys := GroupKeys(full, RowUser);
    forall i | 0 <= i < |keys| ensures GroupSize(full, RowUser, keys[i]) >= 1 {
      GroupSizePositive(full, RowUser, keys[i]);
      assert keys[i] in PresentKeys(full, RowUser);
    }
  }

  /** Every user who has a row with a present user_id appears in user_engagement. */
  lemma EngagementCoversUsers(full: seq<FullRow>, users: seq<UserRow>, now: Day, j: nat)
    requires UniqueKeys(users, UserKey)
    requires j < |full| && full[j].UserId().Some?
    ensures exists i :: 0 <= i < |UserEngagement(full, users, now)| &&
                        UserEngagement(full, users, now)[i].userId == full[j].UserId().value
  {
    EngagementRows(full, users, now);
    var keys := GroupKeys(full, RowUser);
    assert RowUser(full[j]).Some?;
    var i :| 0 <= i < |keys| && keys[i] == full[j].UserId().value;
  }

  /**
   * Totals are conserved: with user_id unique among users, watch_count sums to
   * the number of full_data rows with a present user_id, and watch_time to
   * their summed watch time.
   */
  lemma EngagementConservesTotals(full: seq<FullRow>, users: seq<UserRow>, now: Day)
    requires UniqueKeys(users, UserKey)
    ensures SumNat(WatchCounts(UserEngagement(full, users, now))) == |PresentKeys(full, RowUser)|
    ensures SumReal(WatchTimes(UserEngagement(full, users, now))) == PresentSum(full, RowUser, RowWatchTime)
  {
    var e := UserEngagement(full, users, now);
    var keys := GroupKeys(full, RowUser);
    EngagementRows(full, users, now);
    assert WatchCounts(e) == SizeColumn(keys, full, RowUser);
    assert WatchTimes(e) == SumColumn(keys, full, RowUser, RowWatchTime);
    SizeColumnSum(keys, full, RowUser);
    SumColumnSum(keys, full, RowUser, RowWatchTime);
    GroupSizesAddUp(full, RowUser);
    GroupSumsAddUp(full, RowUser, RowWatchTime);
  }

  // ----- step 5: genre trends -----

  /** The (country, genre) key of a row; missing when either is (groupby drops it). */
  function CountryGenre(r: FullRow): Option<(string, string)> {
    if r.country.Some? && r.Genre().Some? then Some((r.country.value, r.Genre().value)) else None
  }

  /** A row of genre_country_counts. */
  datatype CountRow = CountRow(country: string, genre: string, watchCount: nat)

  /** groupby(['country', 'genre']).size(): every count is at least 1. */
  function GenreCountryCounts(full: seq<FullRow>): (c: seq<CountRow>)
    ensures |c| == |GroupKeys(full, CountryGenre)|
    ensures forall i :: 0 <= i < |c| ==>
              var k := GroupKeys(full, CountryGenre)[i];
              c[i] == CountRow(k.0, k.1, GroupSize(full, CountryGenre, k))
    ensures forall i :: 0 <= i < |c| ==> c[i].watchCount >= 1
  {
    var keys := GroupKeys(full, CountryGenre);
    AllGroupsNonEmpty(full, CountryGenre);
    seq(|keys|, i requires 0 <= i < |keys| => CountRow(keys[i].0, keys[i].1, GroupSize(full, CountryGenre, keys[i])))
  }

  /** Every group of a groupby has at least one row. */
  lemma AllGroupsNonEmpty<K(!new)>(full: seq<FullRow>, key: FullRow -> Option<K>)
    ensures forall k :: k in GroupKeys(full, key) ==> GroupSize(full, key, k) >= 1
  {
    forall k | k in GroupKeys(full, key) ensures GroupSize(full, key, k) >= 1 {
      GroupSizePositive(full, key, k);
    }
  }

  /** country_totals: the sum of watch_count over the count rows of country `c`. */
  function CountryTotal(counts: seq<CountRow>, c: string): nat {
    if counts == [] then 0
    else CountryTotal(counts[..|counts| - 1], c)
         + (if counts[|counts| - 1].country == c then counts[|counts| - 1].watchCount else 0)
  }

  /** A country's total includes each of its rows' counts. */
  lemma {:induction false} CountryTotalAtLeast(counts: seq<CountRow>, i: nat)
    requires i < |counts|
    ensures CountryTotal(counts, counts[i].country) >= counts[i].watchCount
  {
    var p := counts[..|counts| - 1];
    if i < |p| {
      assert p[i] == counts[i];
      CountryTotalAtLeast(p, i);
    }
  }

  /** Every row of a count table counts at least one watch. */
  predicate AllCounted(counts: seq<CountRow>) {
    forall i :: 0 <= i < |counts| ==> counts[i].watchCount >= 1
  }

  /** The merge with country_totals and popularity_score = watch_count / watch_count_total. */
  function Normalise(counts: seq<CountRow>): (t: seq<GenreTrendRow>)
    requires AllCounted(counts)
    ensures |t| == |counts|
    ensures forall i :: 0 <= i < |counts| ==>
              t[i].country == counts[i].country && t[i].genre == counts[i].genre
              && t[i].watchCount == counts[i].watchCount
              && CountryTotal(counts, counts[i].country) > 0
              && t[i].popularityScore == counts[i].watchCount as real / CountryTotal(counts, counts[i].country) as real
  {
    assert forall i :: 0 <= i < |counts| ==> CountryTotal(counts, counts[i].country) >= counts[i].watchCount by {
      forall i | 0 <= i < |counts| ensures CountryTotal(counts, counts[i].country) >= counts[i].watchCount {
        CountryTotalAtLeast(counts, i);
      }
    }
    seq(|counts|, i requires 0 <= i < |counts| =>
      GenreTrendRow(counts[i].country, counts[i].genre, counts[i].watchCount,
                    counts[i].watchCount as real / CountryTotal(counts, counts[i].country) as real))
  }

  /** genre_trends. */
  function GenreTrends(full: seq<FullRow>): seq<GenreTrendRow> {
    Normalise(GenreCountryCounts(full))
  }

  /** The sum of popularity_score over the rows of country `c`. */
  function CountryPopularity(trends: seq<GenreTrendRow>, c: string): real {
    if trends == [] then 0.0
    else CountryPopularity(trends[..|trends| - 1], c)
         + (if trends[|trends| - 1].country == c then trends[|trends| - 1].popularityScore else 0.0)
  }

  lemma PopularitySnoc(trends: seq<GenreTrendRow>, c: string, n: nat)
    requires 0 < n <= |trends|
    ensures CountryPopularity(trends[..n], c)
            == CountryPopularity(trends[..n - 1], c) + (if trends[n - 1].country == c then trends[n - 1].popularityScore else 0.0)
  {
    assert trends[..n][..n - 1] == trends[..n - 1];
    assert trends[..n][n - 1] == trends[n - 1];
  }

  lemma TotalSnoc(counts: seq<CountRow>, c: string, n: nat)
    requires 0 < n <= |counts|
    ensures CountryTotal(counts[..n], c)
            == CountryTotal(counts[..n - 1], c) + (if counts[n - 1].country == c then counts[n - 1].watchCount else 0)
  {
    assert counts[..n][..n - 1] == counts[..n - 1];
    assert counts[..n][n - 1] == counts[n - 1];
  }

  /** Row i's contribution to its country's popularity is its contribution to the country's total, over that total. */
  lemma ShareAt(counts: seq<CountRow>, c: string, i: nat)
    requires AllCounted(counts)
    requires i < |counts| && CountryTotal(counts, c) > 0
    ensures var t := Normalise(counts);
            (if t[i].country == c then t[i].popularityScore else 0.0)
            == (if counts[i].country == c then counts[i].watchCount else 0) as real / CountryTotal(counts, c) as real
  {
  }

  lemma {:induction false} PopularityPrefix(counts: seq<CountRow>, c: string, n: nat)
    requires AllCounted(counts)
    requires n <= |counts| && CountryTotal(counts, c) > 0
    ensures CountryPopularity(Normalise(counts)[..n], c)
            == CountryTotal(counts[..n], c) as real / CountryTotal(counts, c) as real
  {
    if n > 0 {
      var t := Normalise(counts);
      var total := CountryTotal(counts, c) as real;
      PopularityPrefix(counts, c, n - 1);
      PopularitySnoc(t, c, n);
      TotalSnoc(counts, c, n);
      ShareAt(counts, c, n - 1);
      var lastCount := if counts[n - 1].country == c then counts[n - 1].watchCount else 0;
      var before := CountryTotal(counts[..n - 1], c);
      assert CountryTotal(counts[..n], c) as real == before as real + lastCount as real;
      SharesAdd(before as real, lastCount as real, total);
    }
  }

  /** Over any count table, the shares of the country of row `j` sum to 1. */
  lemma {:induction false} SharesSumToOne(counts: seq<CountRow>, j: nat)
    requires AllCounted(counts)
    requires j < |counts|
    ensures CountryPopularity(Normalise(counts), counts[j].country) == 1.0
  {
    var c := counts[j].country;
    var t := Normalise(counts);
    var n := |counts|;
    CountryTotalAtLeast(counts, j);
    PopularityPrefix(counts, c, n);
    assert t[..n] == t;
    assert counts[..n] == counts;
    var total := CountryTotal(counts, c) as real;
    assert CountryPopularity(t, c) == total / total;
    WholeShare(total);
  }

  /** The popularity_score values of the country of row `j` sum to 1. */
  lemma PopularitySumsToOne(full: seq<FullRow>, j: nat)
    requires j < |GenreTrends(full)|
    ensures CountryPopularity(GenreTrends(full), GenreTrends(full)[j].country) == 1.0
  {
    var counts := GenreCountryCounts(full);
    SharesSumToOne(counts, j);
  }

  /** Every popularity_score lies in (0, 1]. */
  lemma PopularityBounds(full: seq<FullRow>)
    ensures forall i :: 0 <= i < |GenreTrends(full)| ==> 0.0 < GenreTrends(full)[i].popularityScore <= 1.0
  {
    var counts := GenreCountryCounts(full);
    var t := Normalise(counts);
    forall i | 0 <= i < |t| ensures 0.0 < t[i].popularityScore <= 1.0 {
      CountryTotalAtLeast(counts, i);
      var a := counts[i].watchCount as real;
      var b := CountryTotal(counts, counts[i].country) as real;
      assert t[i].popularityScore == a / b;
      ShareBounds(a, b);
    }
  }

  /** The watch_count column of genre_trends (WatchCounts is the same column of user_engagement). */
  function TrendCounts(trends: seq<GenreTrendRow>): (col: seq<nat>)
    ensures |col| == |trends| && forall i :: 0 <= i < |trends| ==> col[i] == trends[i].watchCount
  {
    seq(|trends|, i requires 0 <= i < |trends| => trends[i].watchCount)
  }

  /**
   * Rows with a missing country or genre are not counted: the watch counts of
   * genre_trends add up to the number of full_data rows with both present,
   * and each (country, genre) pair has one row.
   */
  lemma TrendCountsConserved(full: seq<FullRow>)
    ensures SumNat(TrendCounts(GenreTrends(full))) == |PresentKeys(full, CountryGenre)|
    ensures forall i, j :: 0 <= i < j < |GenreTrends(full)| ==>
              (GenreTrends(full)[i].country, GenreTrends(full)[i].genre)
                != (GenreTrends(full)[j].country, GenreTrends(full)[j].genre)
  {
    var keys := GroupKeys(full, CountryGenre);
    assert TrendCounts(GenreTrends(full)) == SizeColumn(keys, full, CountryGenre);
    SizeColumnSum(keys, full, CountryGenre);
    GroupSizesAddUp(full, CountryGenre);
  }

  // ----- step 6: daily and weekly active users -----

  function RowDate(r: FullRow): Option<Day> { r.Date() }

  /** The ISO (year, week) of a row's timestamp, through the calendar `isoWeek`. */
  function RowWeek(isoWeek: Day -> IsoWeek): FullRow -> Option<IsoWeek> {
    (r: FullRow) => if r.Date().Some? then Some(isoWeek(r.Date().value)) else None
  }

  /** groupby('date')['user_id'].nunique(). */
  function DailyActiveUsers(full: seq<FullRow>): (dau: seq<DauRow>)
    ensures |dau| == |GroupKeys(full, RowDate)|
    ensures forall i :: 0 <= i < |dau| ==>
              dau[i] == DauRow(GroupKeys(full, RowDate)[i], |Members(full, RowDate, GroupKeys(full, RowDate)[i], RowUser)|)
  {
    var days := GroupKeys(full, RowDate);
    seq(|days|, i requires 0 <= i < |days| => DauRow(days[i], |Members(full, RowDate, days[i], RowUser)|))
  }

  /** The distinct users active in ISO week `w`. */
  function WeeklyUsers(full: seq<FullRow>, isoWeek: Day -> IsoWeek, w: IsoWeek): nat {
    |Members(full, RowWeek(isoWeek), w, RowUser)|
  }

  /** groupby(['year', 'week'])['user_id'].nunique(). */
  function WeeklyActiveUsers(full: seq<FullRow>, isoWeek: Day -> IsoWeek): (wau: seq<WauRow>)
    ensures |wau| == |GroupKeys(full, RowWeek(isoWeek))|
    ensures forall i :: 0 <= i < |wau| ==>
              var w := GroupKeys(full, RowWeek(isoWeek))[i];
              wau[i] == WauRow(w.year, w.week, WeeklyUsers(full, isoWeek, w))
  {
    var weeks := GroupKeys(full, RowWeek(isoWeek));
    seq(|weeks|, i requires 0 <= i < |weeks| =>
      WauRow(weeks[i].year, weeks[i].week, WeeklyUsers(full, isoWeek, weeks[i])))
  }

  /**
   * Each day's distinct-user count is at most that day's row count and at most
   * the distinct-user count of its ISO week, which is a row of the weekly table.
   */
  lemma DauBounds(full: seq<FullRow>, isoWeek: Day -> IsoWeek)
    ensures forall i :: 0 <= i < |DailyActiveUsers(full)| ==>
              var d := DailyActiveUsers(full)[i];
              && d.dailyActiveUsers <= GroupSize(full, RowDate, d.date)
              && isoWeek(d.date) in GroupKeys(full, RowWeek(isoWeek))
              && d.dailyActiveUsers <= WeeklyUsers(full, isoWeek, isoWeek(d.date))
  {
    var dau := DailyActiveUsers(full);
    forall i | 0 <= i < |dau|
      ensures dau[i].dailyActiveUsers <= GroupSize(full, RowDate, dau[i].date)
      ensures isoWeek(dau[i].date) in GroupKeys(full, RowWeek(isoWeek))
      ensures dau[i].dailyActiveUsers <= WeeklyUsers(full, isoWeek, isoWeek(dau[i].date))
    {
      var d := dau[i].date;
      MembersAtMostSize(full, RowDate, d, RowUser);
      var j :| 0 <= j < |full| && RowDate(full[j]) == Some(d);
      assert RowWeek(isoWeek)(full[j]) == Some(isoWeek(d));
      MembersOfFinerGroup(full, RowDate, d, RowWeek(isoWeek), isoWeek(d), RowUser);
      SubsetCardinality(Members(full, RowDate, d, RowUser), Members(full, RowWeek(isoWeek), isoWeek(d), RowUser));
    }
  }

  // ----- the whole stage -----

  /**
   * transform_data: builds full_data, then derives the five output tables from
   * it in the order of the source.
   */
  method TransformData(logs: seq<WatchRow>, movies: seq<MovieRow>, users: seq<UserRow>,
                       now: Day, isoWeek: Day -> IsoWeek)
    returns (summary: seq<SummaryRow>, engagement: seq<EngagementRow>, trends: seq<GenreTrendRow>,
             dau: seq<DauRow>, wau: seq<WauRow>)
    ensures summary == WatchSummary(FullData(logs, movies, users))
    ensures engagement == UserEngagement(FullData(logs, movies, users), users, now)
    ensures trends == GenreTrends(FullData(logs, movies, users))
    ensures dau == DailyActiveUsers(FullData(logs, movies, users))
    ensures wau == WeeklyActiveUsers(FullData(logs, movies, users), isoWeek)
    ensures UniqueKeys(movies, MovieKey) && UniqueKeys(users, UserKey) ==> |summary| == |logs|
    ensures forall i :: 0 <= i < |summary| && summary[i].watchCompletion.Some? ==>
              0.0 <= summary[i].watchCompletion.value <= 1.0
  {
    var enriched := JoinMovies(logs, movies);
    var full := JoinUsers(enriched, users);
    summary := WatchSummary(full);
    engagement := UserEngagement(full, users, now);
    trends := GenreTrends(full);
    dau := DailyActiveUsers(full);
    wau := WeeklyActiveUsers(full, isoWeek);
    if UniqueKeys(movies, MovieKey) && UniqueKeys(users, UserKey) {
      FullDataRows(logs, movies, users);
    }
  }
}
