/**
 * clean_data (etl_pipeline.py): per-column fill and drop rules. As in the
 * source, the columns of the caller's movie and user tables (and the
 * watch_time column of the watch logs) are overwritten in place, and the
 * watch logs without join keys are dropped into a new table.
 */
module Cleaning {
  import opened Wrappers
  import opened Tables
  import Stats

  /** The literal that missing categorical cells are filled with. */
  const Unknown: string := "Unknown"

  /** A column assignment: `f` applied to every row. */
  function Apply<T>(f: T -> T, s: seq<T>): (r: seq<T>)
    ensures |r| == |s|
    ensures forall i :: 0 <= i < |s| ==> r[i] == f(s[i])
  {
    seq(|s|, i requires 0 <= i < |s| => f(s[i]))
  }

  /** Assigns a column of a table in place. */
  method ApplyInPlace<T>(a: array<T>, f: T -> T)
    modifies a
    ensures a[..] == Apply(f, old(a[..]))
  {
    for i := 0 to a.Length
      invariant forall k :: 0 <= k < i ==> a[k] == f(old(a[k]))
      invariant forall k :: i <= k < a.Length ==> a[k] == old(a[k])
    {
      a[i] := f(a[i]);
    }
  }

  // ----- watch logs -----

  /** watch_time.fillna(0) at one row. */
  function FillWatchTime(w: WatchRow): (r: WatchRow)
    ensures r.watchTime.Some?
    ensures w.watchTime.Some? ==> r == w
    ensures w.watchTime.None? ==> r == w.(watchTime := Some(0.0))
  {
    w.(watchTime := Some(w.watchTime.GetOr(0.0)))
  }

  /** Both join keys are present. */
  predicate HasJoinKeys(w: WatchRow) {
    w.userId.Some? && w.movieId.Some?
  }

  /** dropna(subset=['user_id', 'movie_id']): the rows with both keys, in their order. */
  function DropMissingKeys(logs: seq<WatchRow>): (r: seq<WatchRow>)
    ensures |r| <= |logs|
    ensures |logs| == 1 ==> r == if HasJoinKeys(logs[0]) then logs else []
  {
    if logs == [] then []
    else
      var last := logs[|logs| - 1];
      assert logs == logs[..|logs| - 1] + [last];
      DropMissingKeys(logs[..|logs| - 1]) + (if HasJoinKeys(last) then [last] else [])
  }

  /** Exactly the rows with both keys survive, unchanged and as often as they occur. */
  lemma {:induction false} DropMissingKeysSurvivors(logs: seq<WatchRow>)
    ensures forall w :: multiset(DropMissingKeys(logs))[w] == if HasJoinKeys(w) then multiset(logs)[w] else 0
  {
    if logs != [] {
      var p, last := logs[..|logs| - 1], logs[|logs| - 1];
      assert logs == p + [last];
      DropMissingKeysSurvivors(p);
    }
  }

  lemma DropMissingKeysSnoc(p: seq<WatchRow>, w: WatchRow)
    ensures DropMissingKeys(p + [w]) == DropMissingKeys(p) + (if HasJoinKeys(w) then [w] else [])
  {
    assert (p + [w])[..|p + [w]| - 1] == p;
  }

  /** dropna keeps the surviving rows in their original order: it drops row by row. */
  lemma {:induction false} DropMissingKeysConcat(a: seq<WatchRow>, b: seq<WatchRow>)
    ensures DropMissingKeys(a + b) == DropMissingKeys(a) + DropMissingKeys(b)
  {
    if b == [] {
      assert a + b == a;
    } else {
      var b', w := b[..|b| - 1], b[|b| - 1];
      assert b == b' + [w];
      assert a + b == (a + b') + [w];
      DropMissingKeysSnoc(a + b', w);
      DropMissingKeysConcat(a, b');
      DropMissingKeysSnoc(b', w);
      var x, y, kept := DropMissingKeys(a), DropMissingKeys(b'), if HasJoinKeys(w) then [w] else [];
      assert (x + y) + kept == x + (y + kept);
    }
  }

  // ----- movies -----

  /** genre.fillna('Unknown') at one row. */
  function FillGenre(m: MovieRow): (r: MovieRow)
    ensures r.genre.Some?
    ensures m.genre.Some? ==> r == m
    ensures m.genre.None? ==> r == m.(genre := Some(Unknown))
  {
    m.(genre := Some(m.genre.GetOr(Unknown)))
  }

  /** The rows whose measured duration is `x`. */
  function MeasuredRows(movies: seq<MovieRow>, x: real): set<int> {
    set i | 0 <= i < |movies| && movies[i].duration == Some(x)
  }

  /** The rows of genre `g` whose measured duration is `x`. */
  function GenreMeasuredRows(movies: seq<MovieRow>, g: string, x: real): set<int> {
    set i | 0 <= i < |movies| && movies[i].genre == Some(g) && movies[i].duration == Some(x)
  }

  lemma MeasuredRowsSnoc(movies: seq<MovieRow>, x: real)
    requires movies != []
    ensures var p := movies[..|movies| - 1];
            |p| !in MeasuredRows(p, x)
            && MeasuredRows(movies, x)
               == MeasuredRows(p, x) + (if movies[|movies| - 1].duration == Some(x) then {|p|} else {})
  {
    var p := movies[..|movies| - 1];
    assert forall i :: 0 <= i < |p| ==> p[i] == movies[i];
  }

  lemma GenreMeasuredRowsSnoc(movies: seq<MovieRow>, g: string, x: real)
    requires movies != []
    ensures var p := movies[..|movies| - 1];
            var last := movies[|movies| - 1];
            |p| !in GenreMeasuredRows(p, g, x)
            && GenreMeasuredRows(movies, g, x)
               == GenreMeasuredRows(p, g, x) + (if last.genre == Some(g) && last.duration == Some(x) then {|p|} else {})
  {
    var p := movies[..|movies| - 1];
    assert forall i :: 0 <= i < |p| ==> p[i] == movies[i];
  }

  /** The measured durations in the duration column. */
  function Durations(movies: seq<MovieRow>): (ds: seq<real>)
    ensures ds == [] <==> forall i :: 0 <= i < |movies| ==> movies[i].duration.None?
  {
    if movies == [] then []
    else
      var p := movies[..|movies| - 1];
      var last := movies[|movies| - 1];
      assert forall i :: 0 <= i < |p| ==> p[i] == movies[i];
      Durations(p) + (if last.duration.Some? then [last.duration.value] else [])
  }

  /** The measured durations of the movies of genre `g`: the values groupby('genre') gathers for `g`. */
  function GenreDurations(movies: seq<MovieRow>, g: string): (ds: seq<real>)
    ensures ds == [] <==> forall i :: 0 <= i < |movies| ==> !(movies[i].genre == Some(g) && movies[i].duration.Some?)
  {
    if movies == [] then []
    else
      var p := movies[..|movies| - 1];
      var last := movies[|movies| - 1];
      assert forall i :: 0 <= i < |p| ==> p[i] == movies[i];
      GenreDurations(p, g) + (if last.genre == Some(g) && last.duration.Some? then [last.duration.value] else [])
  }

  /** Durations holds each value as often as rows measure it. */
  lemma {:induction false} DurationsContents(movies: seq<MovieRow>, x: real)
    ensures multiset(Durations(movies))[x] == |MeasuredRows(movies, x)|
  {
    if movies != [] {
      var p := movies[..|movies| - 1];
      DurationsContents(p, x);
      MeasuredRowsSnoc(movies, x);
    }
  }

  /** GenreDurations holds each value as often as rows of the genre measure it. */
  lemma {:induction false} GenreDurationsContents(movies: seq<MovieRow>, g: string, x: real)
    ensures multiset(GenreDurations(movies, g))[x] == |GenreMeasuredRows(movies, g, x)|
  {
    if movies != [] {
      var p := movies[..|movies| - 1];
      GenreDurationsContents(p, g, x);
      GenreMeasuredRowsSnoc(movies, g, x);
    }
  }

  /** groupby('genre')['duration'].transform('median') at a row of genre `g`: NaN for a missing genre or a genre without measured durations. */
  function GenreMedian(movies: seq<MovieRow>, g: Option<string>): (m: Option<real>)
    ensures m.Some? <==> g.Some? && GenreDurations(movies, g.value) != []
  {
    if g.None? then None else Stats.Median(GenreDurations(movies, g.value))
  }

  /** The transformed column: each row's genre median. */
  function GenreMedianColumn(movies: seq<MovieRow>): (col: seq<Option<real>>)
    ensures |col| == |movies|
    ensures forall i :: 0 <= i < |movies| ==> col[i] == GenreMedian(movies, movies[i].genre)
  {
    seq(|movies|, i requires 0 <= i < |movies| => GenreMedian(movies, movies[i].genre))
  }

  /** duration.fillna(fill) at one row. */
  function FillDuration(m: MovieRow, fill: Option<real>): (r: MovieRow)
    ensures m.duration.Some? ==> r == m
    ensures m.duration.None? ==> r == m.(duration := fill)
    ensures r.movieId == m.movieId && r.title == m.title && r.genre == m.genre && r.releaseYear == m.releaseYear
  {
    if m.duration.Some? then m else m.(duration := fill)
  }

  /** duration.fillna(column), aligned row by row. */
  function FillDurations(movies: seq<MovieRow>, fills: seq<Option<real>>): (r: seq<MovieRow>)
    requires |fills| == |movies|
    ensures |r| == |movies|
    ensures forall i :: 0 <= i < |movies| ==> r[i] == FillDuration(movies[i], fills[i])
  {
    seq(|movies|, i requires 0 <= i < |movies| => FillDuration(movies[i], fills[i]))
  }

  /** Assigns duration.fillna(column) in place. */
  method FillDurationsInPlace(a: array<MovieRow>, fills: seq<Option<real>>)
    requires |fills| == a.Length
    modifies a
    ensures a[..] == FillDurations(old(a[..]), fills)
  {
    for i := 0 to a.Length
      invariant forall k :: 0 <= k < i ==> a[k] == FillDuration(old(a[k]), fills[k])
      invariant forall k :: i <= k < a.Length ==> a[k] == old(a[k])
    {
      a[i] := FillDuration(a[i], fills[i]);
    }
  }

  /** A column holding one value in every row. */
  function Constant<T>(n: nat, x: T): (col: seq<T>)
    ensures |col| == n && forall i :: 0 <= i < n ==> col[i] == x
  {
    seq(n, _ => x)
  }

  /** Movies after the genre fill. */
  function ByGenre(movies: seq<MovieRow>): seq<MovieRow> {
    Apply(FillGenre, movies)
  }

  /** Movies after the genre-median fill of durations. */
  function GenreFilled(movies: seq<MovieRow>): (r: seq<MovieRow>)
    ensures |r| == |movies|
  {
    FillDurations(ByGenre(movies), GenreMedianColumn(ByGenre(movies)))
  }

  /** The median of the duration column after the genre-median fill (line 98's fallback). */
  function OverallMedian(movies: seq<MovieRow>): Option<real> {
    Stats.Median(Durations(GenreFilled(movies)))
  }

  /** The movie steps of clean_data, composed: genre fill, genre-median fill, then global-median fill. */
  function CleanMovies(movies: seq<MovieRow>): (r: seq<MovieRow>)
    ensures |r| == |movies|
    ensures forall i :: 0 <= i < |movies| ==>
              && r[i].movieId == movies[i].movieId
              && r[i].title == movies[i].title
              && r[i].releaseYear == movies[i].releaseYear
              && r[i].genre == Some(movies[i].genre.GetOr(Unknown))
  {
    var r := FillDurations(GenreFilled(movies), Constant(|movies|, OverallMedian(movies)));
    assert forall i :: 0 <= i < |movies| ==> r[i].genre == GenreFilled(movies)[i].genre == ByGenre(movies)[i].genre;
    r
  }

  /**
   * The duration fill rule. A measured duration is kept. A missing one takes
   * the median of its (filled) genre's measured durations if there are any;
   * otherwise the median of the whole column after the genre fill.
   */
  lemma DurationFill(movies: seq<MovieRow>, i: nat)
    requires i < |movies|
    ensures var g := movies[i].genre.GetOr(Unknown);
            var d := CleanMovies(movies)[i].duration;
            && (movies[i].duration.Some? ==> d == movies[i].duration)
            && (movies[i].duration.None? && GenreDurations(ByGenre(movies), g) != [] ==>
                  d == Stats.Median(GenreDurations(ByGenre(movies), g)))
            && (movies[i].duration.None? && GenreDurations(ByGenre(movies), g) == [] ==>
                  d == OverallMedian(movies))
  {
    assert GenreFilled(movies)[i] == FillDuration(ByGenre(movies)[i], GenreMedianColumn(ByGenre(movies))[i]);
  }

  /** Filling the duration column with a present value leaves no duration missing. */
  lemma FilledWithValue(movies: seq<MovieRow>, fill: Option<real>)
    requires fill.Some?
    ensures forall i :: 0 <= i < |movies| ==> FillDurations(movies, Constant(|movies|, fill))[i].duration.Some?
  {
    var r := FillDurations(movies, Constant(|movies|, fill));
    forall i | 0 <= i < |movies| ensures r[i].duration.Some? {
      assert r[i] == FillDuration(movies[i], fill);
    }
  }

  /** Once one movie has a measured duration, cleaning leaves no duration missing. */
  lemma NoMissingDuration(movies: seq<MovieRow>, j: nat)
    requires j < |movies| && movies[j].duration.Some?
    ensures forall i :: 0 <= i < |movies| ==> CleanMovies(movies)[i].duration.Some?
  {
    var genreFilled := GenreFilled(movies);
    assert genreFilled[j] == FillDuration(ByGenre(movies)[j], GenreMedianColumn(ByGenre(movies))[j]);
    assert genreFilled[j].duration.Some?;
    assert Durations(genreFilled) != [];
    var overall := OverallMedian(movies);
    FilledWithValue(genreFilled, overall);
  }

  /** Measured durations within [lo, hi] make every value of `Durations` lie in [lo, hi]. */
  lemma {:induction false} DurationsBounded(movies: seq<MovieRow>, lo: real, hi: real)
    requires forall i :: 0 <= i < |movies| && movies[i].duration.Some? ==> lo <= movies[i].duration.value <= hi
    ensures forall k :: 0 <= k < |Durations(movies)| ==> lo <= Durations(movies)[k] <= hi
  {
    if movies != [] {
      var p := movies[..|movies| - 1];
      DurationsBounded(p, lo, hi);
    }
  }

  /** Measured durations within [lo, hi] make every value of `GenreDurations` lie in [lo, hi]. */
  lemma {:induction false} GenreDurationsBounded(movies: seq<MovieRow>, g: string, lo: real, hi: real)
    requires forall i :: 0 <= i < |movies| && movies[i].duration.Some? ==> lo <= movies[i].duration.value <= hi
    ensures forall k :: 0 <= k < |GenreDurations(movies, g)| ==> lo <= GenreDurations(movies, g)[k] <= hi
  {
    if movies != [] {
      var p := movies[..|movies| - 1];
      GenreDurationsBounded(p, g, lo, hi);
    }
  }

  /** Every measured duration of `movies` lies in [lo, hi]. */
  predicate DurationsWithin(movies: seq<MovieRow>, lo: real, hi: real) {
    forall i :: 0 <= i < |movies| && movies[i].duration.Some? ==> lo <= movies[i].duration.value <= hi
  }

  /** Every present value of a fill column lies in [lo, hi]. */
  predicate FillsWithin(fills: seq<Option<real>>, lo: real, hi: real) {
    forall i :: 0 <= i < |fills| && fills[i].Some? ==> lo <= fills[i].value <= hi
  }

  /** fillna with values in range keeps every duration in range. */
  lemma FillStaysWithin(movies: seq<MovieRow>, fills: seq<Option<real>>, lo: real, hi: real)
    requires |fills| == |movies|
    requires DurationsWithin(movies, lo, hi) && FillsWithin(fills, lo, hi)
    ensures DurationsWithin(FillDurations(movies, fills), lo, hi)
  {
    var r := FillDurations(movies, fills);
    forall i | 0 <= i < |r| && r[i].duration.Some? ensures lo <= r[i].duration.value <= hi {
      assert r[i] == FillDuration(movies[i], fills[i]);
    }
  }

  /** The genre medians of durations in range are in range. */
  lemma GenreMediansWithin(movies: seq<MovieRow>, lo: real, hi: real)
    requires DurationsWithin(movies, lo, hi)
    ensures FillsWithin(GenreMedianColumn(movies), lo, hi)
  {
    var medians := GenreMedianColumn(movies);
    forall i | 0 <= i < |medians| && medians[i].Some? ensures lo <= medians[i].value <= hi {
      var ds := GenreDurations(movies, movies[i].genre.value);
      GenreDurationsBounded(movies, movies[i].genre.value, lo, hi);
      Stats.MedianWithinBounds(ds, lo, hi);
    }
  }

  /** The median of durations in range, when there is one, is in range. */
  lemma OverallMedianWithin(movies: seq<MovieRow>, lo: real, hi: real)
    requires DurationsWithin(movies, lo, hi)
    ensures FillsWithin(Constant(|movies|, Stats.Median(Durations(movies))), lo, hi)
  {
    var all := Durations(movies);
    if all != [] {
      DurationsBounded(movies, lo, hi);
      Stats.MedianWithinBounds(all, lo, hi);
    }
  }

  /** Fill values are medians of measured values, so every duration stays within any range that bounds the measured ones. */
  lemma DurationsStayInRange(movies: seq<MovieRow>, lo: real, hi: real)
    requires forall i :: 0 <= i < |movies| && movies[i].duration.Some? ==> lo <= movies[i].duration.value <= hi
    ensures forall i :: 0 <= i < |movies| && CleanMovies(movies)[i].duration.Some? ==>
              lo <= CleanMovies(movies)[i].duration.value <= hi
  {
    var byGenre := ByGenre(movies);
    assert DurationsWithin(byGenre, lo, hi) by {
      assert forall i :: 0 <= i < |byGenre| ==> byGenre[i].duration == movies[i].duration;
    }
    GenreMediansWithin(byGenre, lo, hi);
    FillStaysWithin(byGenre, GenreMedianColumn(byGenre), lo, hi);
    var genreFilled := GenreFilled(movies);
    OverallMedianWithin(genreFilled, lo, hi);
    FillStaysWithin(genreFilled, Constant(|movies|, OverallMedian(movies)), lo, hi);
    assert DurationsWithin(CleanMovies(movies), lo, hi);
  }

  // ----- users -----

  /** country.fillna('Unknown') at one row. */
  function FillCountry(u: UserRow): (r: UserRow)
    ensures r.country.Some?
    ensures u.country.Some? ==> r == u
    ensures u.country.None? ==> r == u.(country := Some(Unknown))
  {
    u.(country := Some(u.country.GetOr(Unknown)))
  }

  /** age_group.fillna('Unknown') at one row. */
  function FillAgeGroup(u: UserRow): (r: UserRow)
    ensures r.ageGroup.Some?
    ensures u.ageGroup.Some? ==> r == u
    ensures u.ageGroup.None? ==> r == u.(ageGroup := Some(Unknown))
  {
    u.(ageGroup := Some(u.ageGroup.GetOr(Unknown)))
  }

  /** The user steps of clean_data: every country and age group present, filled ones being "Unknown", nothing else changed. */
  function CleanUsers(users: seq<UserRow>): (r: seq<UserRow>)
    ensures |r| == |users|
    ensures forall i :: 0 <= i < |users| ==>
              r[i] == users[i].(country := Some(users[i].country.GetOr(Unknown)),
                                ageGroup := Some(users[i].ageGroup.GetOr(Unknown)))
  {
    Apply(FillAgeGroup, Apply(FillCountry, users))
  }

  // ----- the whole stage -----

  /**
   * clean_data. The watch logs get their watch_time filled in place and the
   * rows with both join keys are returned as a new table; the movie and user
   * tables are cleaned in place.
   */
  method CleanData(watchLogs: array<WatchRow>, movies: array<MovieRow>, users: array<UserRow>)
    returns (cleanLogs: seq<WatchRow>)
    modifies watchLogs, movies, users
    ensures watchLogs[..] == Apply(FillWatchTime, old(watchLogs[..]))
    ensures cleanLogs == DropMissingKeys(watchLogs[..])
    ensures movies[..] == CleanMovies(old(movies[..]))
    ensures users[..] == CleanUsers(old(users[..]))
  {
    ApplyInPlace(watchLogs, FillWatchTime);
    cleanLogs := DropMissingKeys(watchLogs[..]);

    ApplyInPlace(movies, FillGenre);
    assert movies[..] == ByGenre(old(movies[..]));
    var genreMedians := GenreMedianColumn(movies[..]);
    FillDurationsInPlace(movies, genreMedians);
    var overall := Stats.Median(Durations(movies[..]));
    FillDurationsInPlace(movies, Constant(movies.Length, overall));

    ApplyInPlace(users, FillCountry);
    ApplyInPlace(users, FillAgeGroup);
  }

  /** Every cleaned watch row has both join keys and a watch time. */
  lemma CleanLogsReady(logs: seq<WatchRow>)
    ensures forall w :: w in DropMissingKeys(Apply(FillWatchTime, logs)) ==> HasJoinKeys(w) && w.watchTime.Some?
  {
    var filled := Apply(FillWatchTime, logs);
    var r := DropMissingKeys(filled);
    DropMissingKeysSurvivors(filled);
    forall w | w in r ensures HasJoinKeys(w) && w.watchTime.Some? {
      assert w in multiset(r);
      assert w in multiset(filled);
      var i :| 0 <= i < |filled| && filled[i] == w;
    }
  }
}
