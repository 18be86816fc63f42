/**
 * The calculations of analyze_genre_trends_by_country (data_analysis.py):
 * the top genre row of each country (groupby('country')['watch_count'].idxmax())
 * and the inverse map from each genre to the countries where it is on top.
 */
module GenreCountryAnalysis {
  import opened Wrappers
  import opened Tables
  import opened Grouping

  function TrendCountry(t: GenreTrendRow): Option<string> { Some(t.country) }

  /** The countries of genre_trends, each once. */
  function Countries(trends: seq<GenreTrendRow>): seq<string> {
    GroupKeys(trends, TrendCountry)
  }

  /**
   * Among the first `n` rows, the index of the row of country `c` with the
   * largest watch_count, the first such row on ties (what idxmax returns).
   */
  function FirstMax(trends: seq<GenreTrendRow>, c: string, n: nat): (r: Option<nat>)
    requires n <= |trends|
    ensures r.None? <==> forall j :: 0 <= j < n ==> trends[j].country != c
    ensures r.Some? ==> r.value < n && trends[r.value].country == c
    ensures r.Some? ==> forall j :: 0 <= j < n && trends[j].country == c ==> trends[j].watchCount <= trends[r.value].watchCount
    ensures r.Some? ==> forall j :: 0 <= j < r.value && trends[j].country == c ==> trends[j].watchCount < trends[r.value].watchCount
  {
    if n == 0 then None
    else
      var prev := FirstMax(trends, c, n - 1);
      if trends[n - 1].country != c then prev
      else if prev.None? || trends[n - 1].watchCount > trends[prev.value].watchCount then Some(n - 1)
      else prev
  }

  /** The index idxmax picks for country `c` of genre_trends. */
  function TopIndex(trends: seq<GenreTrendRow>, c: string): (i: nat)
    requires c in Countries(trends)
    ensures i < |trends| && trends[i].country == c
    ensures forall j :: 0 <= j < |trends| && trends[j].country == c ==> trends[j].watchCount <= trends[i].watchCount
    ensures forall j :: 0 <= j < i && trends[j].country == c ==> trends[j].watchCount < trends[i].watchCount
  {
    var j :| 0 <= j < |trends| && TrendCountry(trends[j]) == Some(c);
    FirstMax(trends, c, |trends|).value
  }

  /** top_genres = genre_trends.loc[idxmax]: one row per country. */
  function TopGenres(trends: seq<GenreTrendRow>): (top: seq<GenreTrendRow>)
    ensures |top| == |Countries(trends)|
    ensures forall i :: 0 <= i < |top| ==> top[i] == trends[TopIndex(trends, Countries(trends)[i])]
  {
    var countries := Countries(trends);
    seq(|countries|, i requires 0 <= i < |countries| => trends[TopIndex(trends, countries[i])])
  }

  /** Each top row is a row of genre_trends with the largest watch_count of its country. */
  lemma TopGenresAreMaximal(trends: seq<GenreTrendRow>, i: nat, j: nat)
    requires i < |TopGenres(trends)| && j < |trends|
    requires trends[j].country == TopGenres(trends)[i].country
    ensures TopGenres(trends)[i] in trends
    ensures trends[j].watchCount <= TopGenres(trends)[i].watchCount
  {
    var c := Countries(trends)[i];
    var k := TopIndex(trends, c);
    assert TopGenres(trends)[i] == trends[k];
  }

  /** There is exactly one top row per country of genre_trends. */
  lemma TopGenresOnePerCountry(trends: seq<GenreTrendRow>)
    ensures var top := TopGenres(trends);
            && (forall i, j :: 0 <= i < j < |top| ==> top[i].country != top[j].country)
            && (forall j :: 0 <= j < |trends| ==> exists i :: 0 <= i < |top| && top[i].country == trends[j].country)
  {
    var top := TopGenres(trends);
    var countries := Countries(trends);
    forall i | 0 <= i < |top| ensures top[i].country == countries[i] {
      TopCountry(trends, i);
    }
    forall j | 0 <= j < |trends| ensures exists i :: 0 <= i < |top| && top[i].country == trends[j].country {
      assert TrendCountry(trends[j]) == Some(trends[j].country);
      var i :| 0 <= i < |countries| && countries[i] == trends[j].country;
      assert top[i].country == countries[i];
    }
  }

  /** The country of the ith top row is the ith country. */
  lemma TopCountry(trends: seq<GenreTrendRow>, i: nat)
    requires i < |TopGenres(trends)|
    ensures TopGenres(trends)[i].country == Countries(trends)[i]
    ensures TopGenres(trends)[i].genre == TopGenreOf(trends, Countries(trends)[i])
  {
    assert TopGenres(trends)[i] == trends[TopIndex(trends, Countries(trends)[i])];
  }

  /** The top genre of country `c`. */
  function TopGenreOf(trends: seq<GenreTrendRow>, c: string): string
    requires c in Countries(trends)
  {
    trends[TopIndex(trends, c)].genre
  }

  // ----- genre_countries -----

  function Genres(trends: seq<GenreTrendRow>): (gs: seq<string>)
    ensures |gs| == |trends| && forall i :: 0 <= i < |trends| ==> gs[i] == trends[i].genre
  {
    seq(|trends|, i requires 0 <= i < |trends| => trends[i].genre)
  }

  /** top_genres[top_genres['genre'] == g]['country'].tolist(). */
  function CountriesOf(top: seq<GenreTrendRow>, g: string): (cs: seq<string>)
    ensures forall c :: c in cs <==> exists i :: 0 <= i < |top| && top[i].genre == g && top[i].country == c
  {
    if top == [] then []
    else
      var last := top[|top| - 1];
      var rest := CountriesOf(top[..|top| - 1], g);
      assert forall i :: 0 <= i < |top| - 1 ==> top[..|top| - 1][i] == top[i];
      rest + (if last.genre == g then [last.country] else [])
  }

  /** The genre_countries dict: each genre of genre_trends with a nonempty list of countries. */
  function GenreCountriesOf(genres: seq<string>, top: seq<GenreTrendRow>): map<string, seq<string>> {
    map g | g in genres && CountriesOf(top, g) != [] :: CountriesOf(top, g)
  }

  /** The loop over genre_trends['genre'].unique() that fills genre_countries. */
  method GenreCountries(trends: seq<GenreTrendRow>, top: seq<GenreTrendRow>) returns (genreCountries: map<string, seq<string>>)
    ensures genreCountries == GenreCountriesOf(Distinct(Genres(trends)), top)
  {
    var genres := Distinct(Genres(trends));
    genreCountries := map[];
    var i := 0;
    while i < |genres|
      invariant 0 <= i <= |genres|
      invariant genreCountries == GenreCountriesOf(genres[..i], top)
    {
      var genre := genres[i];
      var countries := CountriesOf(top, genre);
      if countries != [] {
        genreCountries := genreCountries[genre := countries];
      }
      assert genres[..i + 1] == genres[..i] + [genre];
      i := i + 1;
    }
    assert genres[..|genres|] == genres;
  }

  /**
   * genre_countries is the inverse of the top genres: no genre maps to an
   * empty list, every country of genre_trends is listed under its top genre,
   * and a country listed under a genre has that genre as its top genre, so it
   * is listed under exactly one genre.
   */
  lemma GenreCountriesInverse(trends: seq<GenreTrendRow>)
    ensures var gc := GenreCountriesOf(Distinct(Genres(trends)), TopGenres(trends));
            && (forall g :: g in gc ==> gc[g] != [])
            && (forall c :: c in Countries(trends) ==> TopGenreOf(trends, c) in gc && c in gc[TopGenreOf(trends, c)])
            && (forall g, c :: g in gc && c in gc[g] ==> c in Countries(trends) && g == TopGenreOf(trends, c))
  {
    var top := TopGenres(trends);
    var countries := Countries(trends);
    var genres := Distinct(Genres(trends));
    var gc := GenreCountriesOf(genres, top);
    forall c | c in countries ensures TopGenreOf(trends, c) in gc && c in gc[TopGenreOf(trends, c)] {
      var i :| 0 <= i < |countries| && countries[i] == c;
      TopCountry(trends, i);
      var g := TopGenreOf(trends, c);
      assert Genres(trends)[TopIndex(trends, c)] == g;
      assert g in genres;
      assert c in CountriesOf(top, g);
    }
    forall g, c | g in gc && c in gc[g] ensures c in countries && g == TopGenreOf(trends, c) {
      var i :| 0 <= i < |top| && top[i].genre == g && top[i].country == c;
      TopCountry(trends, i);
    }
  }

  /** top_genre_by_country: the (country, genre) pairs of the top rows. */
  function TopGenreByCountry(top: seq<GenreTrendRow>): (pairs: seq<(string, string)>)
    ensures |pairs| == |top| && forall i :: 0 <= i < |top| ==> pairs[i] == (top[i].country, top[i].genre)
  {
    seq(|top|, i requires 0 <= i < |top| => (top[i].country, top[i].genre))
  }
}
