/**
 * The dashboard (src/pages/DashboardPage.tsx): the signed-in user's skill
 * editor and the recommendation list it feeds, of which the first three are
 * shown.
 */
module DashboardPage {
  import opened Options
  import opened Seqs
  import opened MockDatabase
  import opened AuthContext
  import opened JobsPage
  import SkillSelection

  /** The number of recommendation cards shown. */
  const ShownRecommendations := 3

  /** `recommendedJobs.slice(0, 3)`. */
  function TopRecommendations(jobs: seq<Job>): (shown: seq<Job>)
    ensures |shown| == if |jobs| < ShownRecommendations then |jobs| else ShownRecommendations
    ensures shown == jobs[..|shown|]
  {
    if |jobs| < ShownRecommendations then jobs else jobs[..ShownRecommendations]
  }

  /**
   * The cards shown are postings sharing a skill with the user, and none of
   * the recommendations left out has a larger overlap than any card shown.
   */
  lemma TopRecommendationsAreBest(catalog: seq<Job>, skills: seq<string>)
    requires |skills| > 0
    ensures var recommended := GetRecommendedJobs(catalog, skills);
            var shown := TopRecommendations(recommended);
            && (forall i :: 0 <= i < |shown| ==> shown[i] in catalog && SharesSkill(shown[i], skills))
            && (forall i, j :: 0 <= i < |shown| <= j < |recommended| ==>
                  Overlap(shown[i], skills) >= Overlap(recommended[j], skills))
  {
    var recommended := GetRecommendedJobs(catalog, skills);
    var shown := TopRecommendations(recommended);
    forall i | 0 <= i < |shown| ensures shown[i] in catalog && SharesSkill(shown[i], skills) {
      assert shown[i] == recommended[i];
      assert recommended[i] in recommended;
    }
    forall i, j | 0 <= i < |shown| <= j < |recommended|
      ensures Overlap(shown[i], skills) >= Overlap(recommended[j], skills)
    {
      assert shown[i] == recommended[i];
    }
  }

  /**
   * The badge on a dashboard card (always in the accent colour) shows the
   * rounded share of the posting's skills the user has; with any skills at
   * all, every card shown scores above 0%.
   */
  lemma ShownCardsScorePositive(catalog: seq<Job>, skills: seq<string>)
    requires WellFormedCatalog(catalog) && |skills| > 0
    ensures var shown := TopRecommendations(GetRecommendedJobs(catalog, skills));
            forall i :: 0 <= i < |shown| ==>
              MatchPercentage(shown[i], skills).Some? && MatchPercentage(shown[i], skills).value > 0
  {
    var shown := TopRecommendations(GetRecommendedJobs(catalog, skills));
    TopRecommendationsAreBest(catalog, skills);
    forall i | 0 <= i < |shown|
      ensures MatchPercentage(shown[i], skills).Some? && MatchPercentage(shown[i], skills).value > 0
    {
      var k :| 0 <= k < |catalog| && catalog[k] == shown[i];
      assert 0 < |shown[i].requiredSkills| <= 5;
      assert Overlap(shown[i], skills) >= 1;
    }
  }

  /** The `DashboardPage` component's state. */
  class DashboardState {
    const auth: AuthProvider
    var recommendedJobs: seq<Job>
    var isEditing: bool
    var selectedSkills: seq<string>

    /** The recommendations are those for the session user's skills. */
    ghost predicate Synced()
      reads this, auth
    {
      auth.user.Some? ==> recommendedJobs == GetRecommendedJobs(Catalog, auth.user.value.skills)
    }

    /** The state on mount, before the effect runs. */
    constructor (auth: AuthProvider)
      ensures this.auth == auth
      ensures recommendedJobs == [] && !isEditing && selectedSkills == []
    {
      this.auth := auth;
      recommendedJobs := [];
      isEditing := false;
      selectedSkills := [];
    }

    /** The effect run when the session user changes. */
    method OnUserChange()
      modifies this
      ensures Synced()
      ensures auth.user.Some? ==> selectedSkills == auth.user.value.skills
      ensures auth.user.None? ==> selectedSkills == old(selectedSkills) && recommendedJobs == old(recommendedJobs)
      ensures isEditing == old(isEditing)
    {
      if auth.user.Some? {
        selectedSkills := auth.user.value.skills;
        recommendedJobs := GetRecommendedJobs(Catalog, auth.user.value.skills);
      }
    }

    /** `handleSkillToggle`. */
    method ToggleSkill(skill: string)
      modifies this
      ensures selectedSkills == SkillSelection.ToggleSkill(old(selectedSkills), skill)
      ensures recommendedJobs == old(recommendedJobs) && isEditing == old(isEditing)
      ensures old(Synced()) ==> Synced()
    {
      selectedSkills := SkillSelection.ToggleSkill(selectedSkills, skill);
    }

    /** The "Edit Skills" button. */
    method StartEditing()
      modifies this
      ensures isEditing
      ensures selectedSkills == old(selectedSkills) && recommendedJobs == old(recommendedJobs)
    {
      isEditing := true;
    }

    /**
     * `saveSkills`: the selection goes to the session, editing ends, and the
     * recommendations are recomputed from the selection.
     */
    method SaveSkills()
      requires auth.Valid()
      modifies this, auth
      ensures auth.Valid() && Synced()
      ensures old(auth.user).Some? ==> auth.user == Some(old(auth.user).value.(skills := old(selectedSkills)))
      ensures old(auth.user).None? ==> auth.user.None?
      ensures !isEditing && selectedSkills == old(selectedSkills)
      ensures recommendedJobs == GetRecommendedJobs(Catalog, selectedSkills)
    {
      var selected := selectedSkills;
      var recommended := GetRecommendedJobs(Catalog, selected);
      var _ := auth.UpdateSkills(selected);
      isEditing := false;
      recommendedJobs := recommended;
    }

    /** The "Cancel" button, rendered only while a user is signed in: the selection is reset. */
    method Cancel()
      requires auth.user.Some?
      modifies this
      ensures selectedSkills == auth.user.value.skills && !isEditing
      ensures recommendedJobs == old(recommendedJobs)
      ensures old(Synced()) ==> Synced()
    {
      selectedSkills := auth.user.value.skills;
      isEditing := false;
    }
  }
}
