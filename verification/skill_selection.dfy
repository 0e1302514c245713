/**
 * The skill picker shared by the registration form, the dashboard and the
 * profile page (`handleSkillToggle` in src/pages/RegisterPage.tsx,
 * src/pages/DashboardPage.tsx and src/pages/ProfilePage.tsx): clicking a
 * selected skill removes it; clicking an unselected one appends it unless
 * five are already selected.
 */
module SkillSelection {
  import opened Seqs

  /** The most skills a selection may hold. */
  const MaxSkills := 5

  function Differs(skill: string): string -> bool {
    s => s != skill
  }

  /**
   * `selectedSkills.filter((s) => s !== skill)`: every occurrence of `skill`
   * dropped, every other entry kept as often as it occurs, in order.
   */
  function Without(selected: seq<string>, skill: string): (r: seq<string>)
    ensures IsSubsequence(r, selected)
    ensures forall s :: multiset(r)[s] == if s == skill then 0 else multiset(selected)[s]
    ensures forall s :: s in r <==> s in selected && s != skill
    ensures skill in selected ==> |r| < |selected|
  {
    FilterIsSubsequence(selected, Differs(skill));
    FilterCount(selected, Differs(skill));
    FilterMembers(selected, Differs(skill));
    assert skill in selected ==> |Filter(selected, Differs(skill))| < |selected| by {
      if skill in selected {
        FilterShorter(selected, Differs(skill), skill);
      }
    }
    Filter(selected, Differs(skill))
  }

  /** The new selection after a click on `skill`. */
  function ToggleSkill(selected: seq<string>, skill: string): (r: seq<string>)
    // a selected skill is removed, every occurrence of it, keeping the others in order
    ensures skill in selected ==> skill !in r && IsSubsequence(r, selected)
                                  && forall s :: s != skill ==> (s in r <==> s in selected)
    ensures skill in selected ==>
              forall s :: multiset(r)[s] == if s == skill then 0 else multiset(selected)[s]
    // an unselected skill is appended below the cap, and ignored at it
    ensures skill !in selected && |selected| < MaxSkills ==> r == selected + [skill]
    ensures skill !in selected && |selected| >= MaxSkills ==> r == selected
  {
    if skill in selected then Without(selected, skill)
    else if |selected| < MaxSkills then selected + [skill]
    else selected
  }

  /** A selection the picker can produce: no skill twice, at most five. */
  predicate ValidSelection(selected: seq<string>) {
    Distinct(selected) && |selected| <= MaxSkills
  }

  /** Every click keeps a valid selection valid. */
  lemma ToggleKeepsSelectionValid(selected: seq<string>, skill: string)
    requires ValidSelection(selected)
    ensures ValidSelection(ToggleSkill(selected, skill))
  {
    var r := ToggleSkill(selected, skill);
    if skill in selected {
      SubsequenceDistinct(r, selected);
    } else if |selected| < MaxSkills {
      forall i, j | 0 <= i < j < |r| ensures r[i] != r[j] {
        if j == |selected| {
          assert r[i] == selected[i];
        }
      }
    }
  }

  /** A subsequence of a sequence without repetitions has none either, and is no longer. */
  lemma {:induction false} SubsequenceDistinct(r: seq<string>, s: seq<string>)
    requires IsSubsequence(r, s) && Distinct(s)
    ensures Distinct(r) && |r| <= |s|
    decreases |s|
  {
    if r != [] {
      assert forall i, j :: 0 <= i < j < |s[1..]| ==> s[1..][i] == s[i + 1] && s[1..][j] == s[j + 1];
      if r[0] == s[0] && IsSubsequence(r[1..], s[1..]) {
        SubsequenceDistinct(r[1..], s[1..]);
        SubsequenceMembers(r[1..], s[1..]);
        forall i, j | 0 <= i < j < |r| ensures r[i] != r[j] {
          assert r[j] == r[1..][j - 1];
          if i == 0 {
            assert r[j] in s[1..];
            var m :| 0 <= m < |s[1..]| && s[1..][m] == r[j];
            assert s[m + 1] == r[j];
          } else {
            assert r[i] == r[1..][i - 1];
          }
        }
      } else {
        SubsequenceDistinct(r, s[1..]);
      }
    }
  }

  /** Below the cap, clicking an unselected skill twice restores the selection. */
  lemma ToggleTwiceRestores(selected: seq<string>, skill: string)
    requires skill !in selected && |selected| < MaxSkills
    ensures ToggleSkill(ToggleSkill(selected, skill), skill) == selected
  {
    FilterAppend(selected, [skill], Differs(skill));
    FilterAll(selected, Differs(skill));
    assert Filter([skill], Differs(skill)) == [];
  }

  /** `!selectedSkills.includes(skill) && selectedSkills.length >= 5`: the checkbox is greyed out. */
  predicate CheckboxDisabled(selected: seq<string>, skill: string) {
    skill !in selected && |selected| >= MaxSkills
  }

  /** A checkbox is disabled exactly when clicking it would change nothing. */
  lemma DisabledIffToggleIsNoOp(selected: seq<string>, skill: string)
    ensures CheckboxDisabled(selected, skill) <==> ToggleSkill(selected, skill) == selected
  {
    if skill in selected {
      assert |ToggleSkill(selected, skill)| < |selected|;
    } else if |selected| < MaxSkills {
      assert |ToggleSkill(selected, skill)| == |selected| + 1;
    }
  }
}
