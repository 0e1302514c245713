/**
 * The registration form (src/pages/RegisterPage.tsx): the skill picker and
 * the password checks made before an account is created.
 */
module RegisterPage {
  import opened Options
  import opened Text
  import opened MockDatabase
  import opened AuthContext
  import SkillSelection

  const MismatchError := "Passwords don't match"
  const TooShortError := "Password must be at least 6 characters long"

  /** The shortest password accepted, counted in UTF-16 code units as `length` does. */
  const MinPasswordLength := 6

  /**
   * The message the form shows for a password and its confirmation, empty
   * when both checks pass. A mismatch is reported before a short password.
   */
  function PasswordError(password: string, confirmPassword: string): (message: string)
    ensures password != confirmPassword ==> message == MismatchError
    ensures password == confirmPassword && Utf16Length(password) < MinPasswordLength ==> message == TooShortError
    ensures message == "" <==> password == confirmPassword && Utf16Length(password) >= MinPasswordLength
  {
    if password != confirmPassword then MismatchError
    else if Utf16Length(password) < MinPasswordLength then TooShortError
    else ""
  }

  /** The bound is inclusive: a six-unit password is accepted, a five-unit one is not. */
  lemma SixIsEnough(password: string)
    requires forall i :: 0 <= i < |password| ==> password[i] as int <= 0xFFFF
    ensures |password| == 6 ==> PasswordError(password, password) == ""
    ensures |password| == 5 ==> PasswordError(password, password) == TooShortError
  {
  }

  /** The `RegisterPage` component's state once the text fields are filled in. */
  class RegisterForm {
    const name: string
    const email: string
    const password: string
    const confirmPassword: string
    var selectedSkills: seq<string>
    var passwordError: string

    constructor (name: string, email: string, password: string, confirmPassword: string)
      ensures this.name == name && this.email == email
      ensures this.password == password && this.confirmPassword == confirmPassword
      ensures selectedSkills == [] && passwordError == ""
    {
      this.name := name;
      this.email := email;
      this.password := password;
      this.confirmPassword := confirmPassword;
      selectedSkills := [];
      passwordError := "";
    }

    /** `handleSkillToggle`. */
    method ToggleSkill(skill: string)
      modifies this
      ensures selectedSkills == SkillSelection.ToggleSkill(old(selectedSkills), skill)
      ensures passwordError == old(passwordError)
    {
      selectedSkills := SkillSelection.ToggleSkill(selectedSkills, skill);
    }

    /**
     * `handleSubmit`: records the password message and, only when it is
     * empty, registers through the session layer. `registered` is what
     * sends the browser on to the dashboard.
     */
    method HandleSubmit(auth: AuthProvider) returns (registered: bool)
      requires auth.Valid()
      modifies this, auth, auth.store
      ensures auth.Valid()
      ensures passwordError == PasswordError(password, confirmPassword)
      ensures selectedSkills == old(selectedSkills)
      ensures passwordError != "" ==> !registered
      // every rejection, by the password checks or by a taken e-mail, leaves the table and the session alone
      ensures !registered ==> auth.store.users == old(auth.store.users) && auth.user == old(auth.user)
      ensures passwordError == "" ==> (registered <==> !EmailTaken(old(auth.store.users), email))
      ensures registered ==> && auth.user == Some(User(NatToString(|old(auth.store.users)| + 1), name, email, password, selectedSkills))
                             && auth.store.users == old(auth.store.users) + [auth.user.value]
    {
      if password != confirmPassword {
        passwordError := MismatchError;
        return false;
      }
      if Utf16Length(password) < MinPasswordLength {
        passwordError := TooShortError;
        return false;
      }
      passwordError := "";
      var notice;
      registered, notice := auth.Register(name, email, password, selectedSkills);
    }
  }
}
