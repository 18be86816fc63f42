/**
 * The retention part of analyze_user_engagement (data_analysis.py): users of
 * user_engagement grouped by signup month, with the share of each cohort that
 * watched anything. The month of a day number is a parameter.
 */
module EngagementAnalysis {
  import opened Wrappers
  import opened Tables
  import opened Grouping
  import opened Division
  import Transform

  /** A signup month (Period with monthly frequency). */
  datatype Month = Month(year: int, month: int)

  /** signup_month; a missing signup date has no month, and groupby drops it. */
  function CohortOf(monthOf: Day -> Month): EngagementRow -> Option<Month> {
    (e: EngagementRow) => if e.signupDay.Some? then Some(monthOf(e.signupDay.value)) else None
  }

  /** The cohort of a user who is counted as active (watch_count > 0), none otherwise. */
  function ActiveCohortOf(monthOf: Day -> Month): EngagementRow -> Option<Month> {
    (e: EngagementRow) => if e.watchCount > 0 then CohortOf(monthOf)(e) else None
  }

  /** A row of cohort_activity. */
  datatype CohortRow = CohortRow(month: Month, totalUsers: nat, activeUsers: nat, retentionRate: real)

  /**
   * The cohort_activity row of signup month `m`, with retention_rate =
   * active_users / total_users. A cohort has at least one user, so the division
   * is defined, and the rate is a share in [0, 1].
   */
  function Cohort(engagement: seq<EngagementRow>, monthOf: Day -> Month, m: Month): (c: CohortRow)
    requires m in GroupKeys(engagement, CohortOf(monthOf))
    ensures c.month == m && c.totalUsers == GroupSize(engagement, CohortOf(monthOf), m)
    ensures c.activeUsers == GroupSize(engagement, ActiveCohortOf(monthOf), m)
    ensures 1 <= c.totalUsers && c.activeUsers <= c.totalUsers
    ensures c.retentionRate == c.activeUsers as real / c.totalUsers as real
    ensures 0.0 <= c.retentionRate <= 1.0
  {
    var total := GroupSize(engagement, CohortOf(monthOf), m);
    var active := GroupSize(engagement, ActiveCohortOf(monthOf), m);
    GroupSizePositive(engagement, CohortOf(monthOf), m);
    GroupSizeOfFinerKey(engagement, ActiveCohortOf(monthOf), m, CohortOf(monthOf), m);
    ShareBounds(active as real, total as real);
    CohortRow(m, total, active, active as real / total as real)
  }

  /** cohort_activity: one row per signup month present. */
  function CohortActivity(engagement: seq<EngagementRow>, monthOf: Day -> Month): (c: seq<CohortRow>)
    ensures |c| == |GroupKeys(engagement, CohortOf(monthOf))|
    ensures forall i :: 0 <= i < |c| ==> c[i] == Cohort(engagement, monthOf, GroupKeys(engagement, CohortOf(monthOf))[i])
  {
    var months := GroupKeys(engagement, CohortOf(monthOf));
    seq(|months|, i requires 0 <= i < |months| => Cohort(engagement, monthOf, months[i]))
  }

  /**
   * The active users of a cohort are exactly its users with watch_count > 0:
   * a user counts towards active_users of month m precisely when it is in
   * cohort m and has watched.
   */
  lemma ActiveMeansWatched(e: EngagementRow, monthOf: Day -> Month, m: Month)
    ensures ActiveCohortOf(monthOf)(e) == Some(m) <==> CohortOf(monthOf)(e) == Some(m) && e.watchCount > 0
  {
  }

  /**
   * Over the user_engagement table the pipeline builds, every retention rate is
   * 1: that table only holds users with at least one watch row, so every user of
   * a cohort is active.
   */
  lemma RetentionOfPipelineIsFull(full: seq<FullRow>, users: seq<UserRow>, now: Day, monthOf: Day -> Month)
    requires UniqueKeys(users, Transform.UserKey)
    ensures forall i :: 0 <= i < |CohortActivity(Transform.UserEngagement(full, users, now), monthOf)| ==>
              CohortActivity(Transform.UserEngagement(full, users, now), monthOf)[i].retentionRate == 1.0
  {
    var e := Transform.UserEngagement(full, users, now);
    Transform.EngagementRows(full, users, now);
    var months := GroupKeys(e, CohortOf(monthOf));
    forall i | 0 <= i < |months|
      ensures Cohort(e, monthOf, months[i]).retentionRate == 1.0
    {
      var m := months[i];
      assert forall j :: 0 <= j < |e| && CohortOf(monthOf)(e[j]) == Some(m) ==> ActiveCohortOf(monthOf)(e[j]) == Some(m);
      GroupSizeOfFinerKey(e, CohortOf(monthOf), m, ActiveCohortOf(monthOf), m);
      var c := Cohort(e, monthOf, m);
      assert c.activeUsers == c.totalUsers;
      WholeShare(c.totalUsers as real);
    }
  }
}
