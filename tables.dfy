/**
 * The rows of the pipeline's tables. A nullable cell is an `Option`; dates
 * are day numbers (an already-parsed timestamp's calendar date).
 */
module Tables {
  import opened Wrappers
  import opened Division

  type Id = string

  /** A calendar date as a day number. */
  type Day = int

  // ----- inputs -----

  /** One viewing session of the watch-logs table. */
  datatype WatchRow = WatchRow(userId: Option<Id>, movieId: Option<Id>, watchTime: Option<real>,
                               device: Option<string>, day: Option<Day>)

  /** One title of the movie catalog; `duration` is in minutes, after numeric coercion. */
  datatype MovieRow = MovieRow(movieId: Id, title: Option<string>, genre: Option<string>,
                               duration: Option<real>, releaseYear: Option<int>)

  /** One registered account. */
  datatype UserRow = UserRow(userId: Id, name: Option<string>, signupDay: Option<Day>,
                             country: Option<string>, ageGroup: Option<string>)

  // ----- joined rows -----

  /** A watch row after the left merge with movies: the movie columns are missing when nothing matched. */
  datatype EnrichedRow = EnrichedRow(watch: WatchRow, title: Option<string>, genre: Option<string>,
                                     duration: Option<real>, releaseYear: Option<int>)

  /** An enriched row after the left merge with users (full_data). */
  datatype FullRow = FullRow(log: EnrichedRow, name: Option<string>, signupDay: Option<Day>,
                             country: Option<string>, ageGroup: Option<string>)
  {
    function UserId(): Option<Id> { log.watch.userId }
    function Genre(): Option<string> { log.genre }
    function Date(): Option<Day> { log.watch.day }
  }

  // ----- outputs -----

  /** A row of watch_summary. */
  datatype SummaryRow = SummaryRow(userId: Option<Id>, movieId: Option<Id>, title: Option<string>,
                                   genre: Option<string>, watchTime: Option<real>, duration: Option<real>,
                                   watchCompletion: Option<real>, device: Option<string>, day: Option<Day>)

  datatype Level = Light | Medium | Heavy

  /** A row of user_engagement. `avgDailyWatch` is never NaN (it is filled with 0) but may be infinite. */
  datatype EngagementRow = EngagementRow(userId: Id, watchTime: real, watchCount: nat,
                                         name: Option<string>, country: Option<string>, ageGroup: Option<string>,
                                         signupDay: Option<Day>, daysSinceSignup: Option<int>,
                                         avgDailyWatch: Quotient, engagementLevel: Option<Level>)

  /** A row of genre_trends. */
  datatype GenreTrendRow = GenreTrendRow(country: string, genre: string, watchCount: nat, popularityScore: real)

  /** An ISO calendar (year, week). */
  datatype IsoWeek = IsoWeek(year: int, week: int)

  /** A row of daily_active_users. */
  datatype DauRow = DauRow(date: Day, dailyActiveUsers: nat)

  /** A row of weekly_active_users. */
  datatype WauRow = WauRow(year: int, week: int, weeklyActiveUsers: nat)
}
