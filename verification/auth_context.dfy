/**
 * The session layer (src/contexts/AuthContext.tsx): the signed-in user, the
 * persisted copy of it (the browser's local-storage slot), and the
 * transitions login, register, logout and skill update over the user table.
 */
module AuthContext {
  import opened Options
  import opened Text
  import opened MockDatabase

  /** The toast shown after a transition: its title and its description. */
  datatype Notice = Notice(title: string, description: string)

  const LoginFailed := Notice("Login Failed", "Invalid email or password")
  const EmailInUse := Notice("Registration Failed", "Email already in use")
  const LoggedOut := Notice("Logged Out", "You have been logged out successfully")
  const SkillsUpdated := Notice("Skills Updated", "Your skills have been updated successfully")

  // ---------------------------------------------------------------------------
  // The decisions, as functions of the user table

  /**
   * The user a login with these credentials signs in: the first user with
   * this e-mail, provided the password matches exactly.
   */
  function LoginUser(users: seq<User>, email: string, password: string): (r: Option<User>)
    ensures r.Some? ==> r.value in users && r.value.email == email && r.value.password == password
    // the account signed in is the first one registered under this e-mail
    ensures r.Some? ==> r == FindUserByEmail(users, email)
    ensures r.None? <==> FindUserByEmail(users, email).None? || FindUserByEmail(users, email).value.password != password
  {
    var found := FindUserByEmail(users, email);
    if found.Some? && found.value.password == password then found else None
  }

  /** The toast after a login attempt. */
  function LoginNotice(signedIn: Option<User>): (n: Notice)
    ensures signedIn.None? <==> n == LoginFailed
  {
    match signedIn
    case Some(u) => Notice("Login Successful", "Welcome back, " + u.name + "!")
    case None => LoginFailed
  }

  /**
   * An unknown e-mail and a wrong password are reported alike: the failure
   * toast does not reveal which of the two went wrong.
   */
  lemma LoginFailureIsUniform(users: seq<User>, unknownEmail: string, email: string, wrongPassword: string)
    requires FindUserByEmail(users, unknownEmail).None?
    requires FindUserByEmail(users, email).Some? && FindUserByEmail(users, email).value.password != wrongPassword
    ensures forall password :: LoginNotice(LoginUser(users, unknownEmail, password)) == LoginFailed
    ensures LoginNotice(LoginUser(users, email, wrongPassword)) == LoginFailed
  {
  }

  /** Registration is refused exactly when some user already has the e-mail. */
  predicate EmailTaken(users: seq<User>, email: string) {
    FindUserByEmail(users, email).Some?
  }

  /** No two users of the table share an e-mail address. */
  predicate UniqueEmails(users: seq<User>) {
    forall i, j :: 0 <= i < j < |users| ==> users[i].email != users[j].email
  }

  /** Registration through the session layer keeps e-mail addresses unique. */
  lemma RegisterKeepsEmailsUnique(users: seq<User>, newUser: User)
    requires UniqueEmails(users) && !EmailTaken(users, newUser.email)
    ensures UniqueEmails(users + [newUser])
  {
    var all := users + [newUser];
    forall i, j | 0 <= i < j < |all| ensures all[i].email != all[j].email {
      if j == |users| {
        assert all[i] == users[i];
      } else {
        assert all[i] == users[i] && all[j] == users[j];
      }
    }
  }

  /** Right after a successful registration the same credentials log in as the new user. */
  lemma LoginAfterRegister(users: seq<User>, newUser: User)
    requires !EmailTaken(users, newUser.email)
    ensures LoginUser(users + [newUser], newUser.email, newUser.password) == Some(newUser)
  {
    var all := users + [newUser];
    assert all[|users|] == newUser;
    assert forall j :: 0 <= j < |users| ==> all[j] == users[j];
  }

  // ---------------------------------------------------------------------------
  // The provider

  /** The `AuthProvider` component's state: the session user and its persisted copy. */
  class AuthProvider {
    /** The module-level user table the provider reads and appends to. */
    const store: UserStore
    /** The session user, `null` in the source when nobody is signed in. */
    var user: Option<User>
    /** The local-storage slot holding the signed-in user, absent when nobody is signed in. */
    var saved: Option<User>

    /** The persisted slot always mirrors the session user. */
    ghost predicate Valid()
      reads this, store
    {
      saved == user && store.Valid()
    }

    /** Mounting the provider: the session is restored from the persisted slot. */
    constructor (store: UserStore, savedUser: Option<User>)
      requires store.Valid()
      ensures Valid()
      ensures this.store == store && user == savedUser
    {
      this.store := store;
      user := savedUser;
      saved := savedUser;
    }

    /** `login`: signs in when the first user with the e-mail has exactly this password. */
    method Login(email: string, password: string) returns (ok: bool, notice: Notice)
      requires Valid()
      modifies this
      ensures Valid()
      ensures ok <==> LoginUser(store.users, email, password).Some?
      ensures ok ==> user == LoginUser(store.users, email, password)
      ensures !ok ==> user == old(user)
      ensures notice == LoginNotice(LoginUser(store.users, email, password))
    {
      var found := FindUserByEmail(store.users, email);
      if found.Some? && found.value.password == password {
        user := found;
        saved := found;
        notice := Notice("Login Successful", "Welcome back, " + found.value.name + "!");
        ok := true;
      } else {
        notice := LoginFailed;
        ok := false;
      }
    }

    /**
     * `register`: refuses an e-mail already in the table; otherwise appends
     * the new user to the table and signs it in.
     */
    method Register(name: string, email: string, password: string, skills: seq<string>)
      returns (ok: bool, notice: Notice)
      requires Valid()
      modifies this, store
      ensures Valid()
      ensures ok <==> !EmailTaken(old(store.users), email)
      ensures !ok ==> store.users == old(store.users) && user == old(user) && notice == EmailInUse
      ensures ok ==> && user.Some?
                     && user.value == User(NatToString(|old(store.users)| + 1), name, email, password, skills)
                     && store.users == old(store.users) + [user.value]
                     && notice == Notice("Registration Successful", "Welcome to JobWise, " + name + "!")
    {
      var existing := FindUserByEmail(store.users, email);
      if existing.Some? {
        return false, EmailInUse;
      }
      var newUser := store.RegisterUser(name, email, password, skills);
      user := Some(newUser);
      saved := Some(newUser);
      ok := true;
      notice := Notice("Registration Successful", "Welcome to JobWise, " + name + "!");
    }

    /** `logout`: nobody is signed in and the slot is cleared. */
    method Logout() returns (notice: Notice)
      requires Valid()
      modifies this
      ensures Valid()
      ensures user.None? && saved.None?
      ensures notice == LoggedOut
    {
      user := None;
      saved := None;
      notice := LoggedOut;
    }

    /**
     * `updateSkills`: replaces the session user's skills, and only the
     * session's copy; the user table keeps the old skills.
     */
    method UpdateSkills(skills: seq<string>) returns (notice: Option<Notice>)
      requires Valid()
      modifies this
      ensures Valid()
      ensures unchanged(store)
      ensures old(user).None? ==> user.None? && notice.None?
      ensures old(user).Some? ==> user == Some(old(user).value.(skills := skills)) && notice == Some(SkillsUpdated)
    {
      if user.None? {
        return None;
      }
      var updated := user.value.(skills := skills);
      user := Some(updated);
      saved := Some(updated);
      notice := Some(SkillsUpdated);
    }
  }
}
