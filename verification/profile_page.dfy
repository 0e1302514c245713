/**
 * The profile page (src/pages/ProfilePage.tsx): the signed-in user's skill
 * editor and the logout button.
 */
module ProfilePage {
  import opened Options
  import opened MockDatabase
  import opened AuthContext
  import SkillSelection

  /** The `ProfilePage` component's state. */
  class ProfileState {
    const auth: AuthProvider
    var isEditingSkills: bool
    var selectedSkills: seq<string>

    /** The state on mount, before the effect runs. */
    constructor (auth: AuthProvider)
      ensures this.auth == auth
      ensures !isEditingSkills && selectedSkills == []
    {
      this.auth := auth;
      isEditingSkills := false;
      selectedSkills := [];
    }

    /** The effect run when the session user changes: the selection follows the user's skills. */
    method OnUserChange()
      modifies this
      ensures auth.user.Some? ==> selectedSkills == auth.user.value.skills
      ensures auth.user.None? ==> selectedSkills == old(selectedSkills)
      ensures isEditingSkills == old(isEditingSkills)
    {
      if auth.user.Some? {
        selectedSkills := auth.user.value.skills;
      }
    }

    /** Whether the checkbox for `skill` is greyed out. */
    function CheckboxDisabled(skill: string): (disabled: bool)
      reads this
      ensures disabled <==> SkillSelection.ToggleSkill(selectedSkills, skill) == selectedSkills
    {
      SkillSelection.DisabledIffToggleIsNoOp(selectedSkills, skill);
      SkillSelection.CheckboxDisabled(selectedSkills, skill)
    }

    /** `handleSkillToggle`. */
    method ToggleSkill(skill: string)
      modifies this
      ensures selectedSkills == SkillSelection.ToggleSkill(old(selectedSkills), skill)
      ensures isEditingSkills == old(isEditingSkills)
    {
      selectedSkills := SkillSelection.ToggleSkill(selectedSkills, skill);
    }

    /** The "Edit Skills" button. */
    method StartEditing()
      modifies this
      ensures isEditingSkills && selectedSkills == old(selectedSkills)
    {
      isEditingSkills := true;
    }

    /** `saveSkills`: the selection goes to the session and editing ends. */
    method SaveSkills()
      requires auth.Valid()
      modifies this, auth
      ensures auth.Valid()
      ensures old(auth.user).Some? ==> auth.user == Some(old(auth.user).value.(skills := old(selectedSkills)))
      ensures old(auth.user).None? ==> auth.user.None?
      ensures !isEditingSkills && selectedSkills == old(selectedSkills)
    {
      var _ := auth.UpdateSkills(selectedSkills);
      isEditingSkills := false;
    }

    /** The "Cancel" button, rendered only while a user is signed in: the selection is reset. */
    method Cancel()
      requires auth.user.Some?
      modifies this
      ensures selectedSkills == auth.user.value.skills && !isEditingSkills
    {
      selectedSkills := auth.user.value.skills;
      isEditingSkills := false;
    }

    /** `handleLogout`: the session ends. */
    method HandleLogout()
      requires auth.Valid()
      modifies auth
      ensures auth.Valid() && auth.user.None?
    {
      var _ := auth.Logout();
    }
  }
}
