/**
 * The job listing page (src/pages/JobsPage.tsx): the catalog and the
 * recommendations loaded for the signed-in user, the search box with its
 * blank-query dispatch, and the match score each job card shows.
 */
module JobsPage {
  import opened Options
  import opened Text
  import opened Seqs
  import opened MockDatabase
  import opened AuthContext

  // ---------------------------------------------------------------------------
  // The job card's match score

  /** Integer division brackets its dividend. */
  lemma DivBracket(a: nat, d: nat)
    requires d > 0
    ensures d * (a / d) <= a < d * (a / d) + d
  {
  }

  lemma MulLeftMonotone(d: nat, x: nat, y: nat)
    requires x <= y
    ensures d * x <= d * y
  {
  }

  lemma MulLeftCancel(d: nat, x: nat, y: nat)
    requires d > 0 && d * x < d * y
    ensures x < y
  {
  }

  /** The quotient `(200 m + n) / (2 n)`, which is 100 m / n rounded half up. */
  function HalfUpPercent(m: nat, n: nat): nat
    requires 0 < n
  {
    (200 * m + n) / (2 * n)
  }

  lemma HalfUpBracket(m: nat, n: nat)
    requires 0 < n
    ensures 2 * n * HalfUpPercent(m, n) <= 200 * m + n < 2 * n * HalfUpPercent(m, n) + 2 * n
  {
    DivBracket(200 * m + n, 2 * n);
  }

  lemma HalfUpAtMost100(m: nat, n: nat)
    requires 0 < n && m <= n
    ensures HalfUpPercent(m, n) <= 100
  {
    var p := HalfUpPercent(m, n);
    HalfUpBracket(m, n);
    assert 2 * n * p < 2 * n * 101;
    MulLeftCancel(2 * n, p, 101);
  }

  lemma HalfUpFull(n: nat)
    requires 0 < n
    ensures HalfUpPercent(n, n) == 100
  {
    var p := HalfUpPercent(n, n);
    HalfUpBracket(n, n);
    HalfUpAtMost100(n, n);
    assert 2 * n * 100 < 2 * n * (p + 1);
    MulLeftCancel(2 * n, 100, p + 1);
  }

  lemma HalfUpZero(m: nat, n: nat)
    requires 0 < n
    ensures HalfUpPercent(m, n) == 0 <==> 200 * m < n
  {
    var p := HalfUpPercent(m, n);
    HalfUpBracket(m, n);
    if 200 * m < n {
      assert 2 * n * p < 2 * n * 1;
      MulLeftCancel(2 * n, p, 1);
    }
  }

  lemma HalfUpAtLeast50(m: nat, n: nat)
    requires 0 < n
    ensures HalfUpPercent(m, n) >= 50 <==> 200 * m >= 99 * n
  {
    var p := HalfUpPercent(m, n);
    HalfUpBracket(m, n);
    if p >= 50 {
      MulLeftMonotone(2 * n, 50, p);
    }
    if 200 * m >= 99 * n {
      assert 2 * n * 50 < 2 * n * (p + 1);
      MulLeftCancel(2 * n, 50, p + 1);
    }
  }

  /**
   * `Math.round(m / n * 100)` for m matched out of n required skills, taken
   * as exact arithmetic: the nearest integer, halves rounded up.
   */
  function RoundedPercent(m: nat, n: nat): (p: nat)
    requires 0 < n && m <= n
    ensures 2 * n * p <= 200 * m + n < 2 * n * p + 2 * n
    ensures p <= 100
    ensures m == n ==> p == 100
    ensures p == 0 <==> 200 * m < n
    ensures p >= 50 <==> 200 * m >= 99 * n
  {
    HalfUpBracket(m, n);
    HalfUpAtMost100(m, n);
    if m == n then HalfUpFull(n); HalfUpZero(m, n); HalfUpAtLeast50(m, n); HalfUpPercent(m, n)
    else HalfUpZero(m, n); HalfUpAtLeast50(m, n); HalfUpPercent(m, n)
  }

  /**
   * The percentage a job card shows for a user's skills, `None` standing for
   * the NaN that a posting without required skills would give.
   */
  function MatchPercentage(job: Job, userSkills: seq<string>): (p: Option<nat>)
    ensures p.None? <==> |job.requiredSkills| == 0
    ensures p.Some? ==> p.value == RoundedPercent(Overlap(job, userSkills), |job.requiredSkills|)
  {
    var n := |job.requiredSkills|;
    if n == 0 then None else Some(RoundedPercent(Overlap(job, userSkills), n))
  }

  /** `matchPercentage >= 50`: the badge takes the accent colour; NaN compares false. */
  predicate AccentBadge(p: Option<nat>) {
    p.Some? && p.value >= 50
  }

  /** The badge is accented exactly when at least 49.5% of the required skills match. */
  lemma AccentIffHalfMatched(job: Job, userSkills: seq<string>)
    ensures AccentBadge(MatchPercentage(job, userSkills))
            <==> |job.requiredSkills| > 0 && 200 * Overlap(job, userSkills) >= 99 * |job.requiredSkills|
  {
  }

  /** Integer division is monotone in its dividend. */
  lemma DivMonotone(a: nat, b: nat, d: nat)
    requires d > 0 && a <= b
    ensures a / d <= b / d
  {
    DivBracket(a, d);
    DivBracket(b, d);
    assert d * (a / d) < d * (b / d + 1);
    MulLeftCancel(d, a / d, b / d + 1);
  }

  /**
   * The card's score follows the recommender's order: of two postings that
   * list the same number of skills, the one with the larger overlap (and so
   * placed no later in the recommendations) shows a percentage at least as
   * high, and equal overlaps show equal percentages.
   */
  lemma CardPercentageFollowsOverlap(job1: Job, job2: Job, userSkills: seq<string>)
    requires |job1.requiredSkills| == |job2.requiredSkills| > 0
    ensures Overlap(job1, userSkills) >= Overlap(job2, userSkills) ==>
              MatchPercentage(job1, userSkills).value >= MatchPercentage(job2, userSkills).value
    ensures Overlap(job1, userSkills) == Overlap(job2, userSkills) ==>
              MatchPercentage(job1, userSkills) == MatchPercentage(job2, userSkills)
  {
    var n := |job1.requiredSkills|;
    var m1, m2 := Overlap(job1, userSkills), Overlap(job2, userSkills);
    if m1 >= m2 {
      MulLeftMonotone(200, m2, m1);
      DivMonotone(200 * m2 + n, 200 * m1 + n, 2 * n);
    }
  }

  // ---------------------------------------------------------------------------
  // The page state

  /** The `JobsPage` component's state. */
  class JobsPageState {
    const auth: AuthProvider
    var allJobs: seq<Job>
    var recommendedJobs: seq<Job>
    var searchQuery: string

    /** The state on mount, before the load effect runs. */
    constructor (auth: AuthProvider)
      ensures this.auth == auth
      ensures allJobs == [] && recommendedJobs == [] && searchQuery == ""
    {
      this.auth := auth;
      allJobs := [];
      recommendedJobs := [];
      searchQuery := "";
    }

    /** The effect run when the session user changes: the catalog, and the user's recommendations. */
    method LoadJobs()
      modifies this
      ensures allJobs == GetAllJobs()
      ensures auth.user.Some? ==> recommendedJobs == GetRecommendedJobs(Catalog, auth.user.value.skills)
      ensures auth.user.None? ==> recommendedJobs == old(recommendedJobs)
      ensures searchQuery == old(searchQuery)
    {
      allJobs := GetAllJobs();
      if auth.user.Some? {
        var skills := auth.user.value.skills;
        recommendedJobs := GetRecommendedJobs(Catalog, skills);
      }
    }

    /** Typing in the search box. */
    method SetSearchQuery(query: string)
      modifies this
      ensures searchQuery == query
      ensures allJobs == old(allJobs) && recommendedJobs == old(recommendedJobs)
    {
      searchQuery := query;
    }

    /**
     * `handleSearch`: a query that is all whitespace shows the whole catalog;
     * any other query is searched as typed, untrimmed.
     */
    method HandleSearch()
      modifies this
      ensures IsBlank(searchQuery) ==> allJobs == GetAllJobs()
      ensures !IsBlank(searchQuery) ==> allJobs == SearchJobs(GetAllJobs(), searchQuery)
      ensures searchQuery == old(searchQuery) && recommendedJobs == old(recommendedJobs)
    {
      TrimEmptyIffBlank(searchQuery);
      var catalog := GetAllJobs();
      if Trim(searchQuery) != "" {
        allJobs := SearchJobs(catalog, searchQuery);
      } else {
        allJobs := catalog;
      }
    }

    /** `resetSearch`: an empty query and the whole catalog. */
    method ResetSearch()
      modifies this
      ensures searchQuery == "" && allJobs == GetAllJobs()
      ensures recommendedJobs == old(recommendedJobs)
    {
      searchQuery := "";
      allJobs := GetAllJobs();
    }
  }
}
