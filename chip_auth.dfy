/** The login of the OmniScan admin application: user name and password
    against users.json, then a second factor whose code is derived from the
    user name, except for administrators, who are fully authenticated at once.
    The session moves from empty, to AuthenticatedUser and UserRole, to
    FullyAuthenticated with ChipAccessLevel. The name hash behind the code is
    an input function. */
module ChipAuth {
  import opened Text
  import opened ChipModels
  import opened JsonStore
  import opened Lists
  import opened HttpSession
  import opened TwoFactorCode
  import opened ChipManagement

  const ChipAccessLevelKey := "ChipAccessLevel"

  /** The users written to a missing users.json. */
  const DefaultUsers: seq<User> := [
    User("admin", "chipmaster123", "admin"),
    User("monitor", "omniscan2024", "monitor"),
    User("guest", "guestaccess", "guest")]

  predicate IsAdmin(u: User) { u.role == "admin" }

  /** LoadUsersFromJson: a missing file is seeded with the default users.
      The seed is written inside the loader's own try block, so when that
      write throws (`seedFails`) the catch returns no users and the file stays
      missing. */
  function LoadUsers(store: Store<User>, seedFails: bool): (r: (seq<User>, Store<User>))
    ensures store.Absent? && !seedFails ==> r == (DefaultUsers, Stored(DefaultUsers))
    ensures store.Absent? && seedFails ==> r == ([], Absent)
    ensures !store.Absent? ==> r == (ItemsOrEmpty(store), store)
  {
    if store.Absent? && seedFails then ([], Absent) else LoadOrSeed(store, DefaultUsers)
  }

  /** A missing users.json yields three users, exactly one an administrator. */
  lemma DefaultUsersShape()
    ensures |LoadUsers(Absent, false).0| == 3
    ensures Count(LoadUsers(Absent, false).0, IsAdmin) == 1
    ensures IsAdmin(LoadUsers(Absent, false).0[0])
  {
    var d := DefaultUsers;
    assert d[..2][..1] == [d[0]] && d[..2] == [d[0], d[1]] && d[..1][..0] == [];
  }

  /** The first user with the given name. */
  function FindUser(users: seq<User>, name: string): (r: Option<nat>)
    ensures r.Some? ==> r.value < |users| && users[r.value].username == name
    ensures r.None? ==> forall j :: 0 <= j < |users| ==> users[j].username != name
  {
    IndexWhere(users, (u: User) => u.username == name)
  }

  datatype LoginOutcome =
    | LoginInvalid(errors: seq<string>)
    | LoginUnknownUser(message: string)
    | LoginWrongPassword(message: string)
    | LoginToDashboard
    | LoginToTwoFactor

  /** The session after a successful login of `u` under the name it entered. */
  function SignedIn(values: Values, name: string, u: User): Values {
    var v := values[AuthenticatedUserKey := Text(name)][UserRoleKey := Text(u.role)];
    if IsAdmin(u) then v[FullyAuthenticatedKey := Text("true")][ChipAccessLevelKey := Text("monitoring")]
    else v
  }

  /** Login (POST): the new session, the new content of users.json and the
      response; `seedFails` says whether seeding a missing users.json throws. */
  function LoginStep(values: Values, users: Store<User>, seedFails: bool, m: LoginModel): (Values, Store<User>, LoginOutcome) {
    if LoginErrors(m) != [] then (values, users, LoginInvalid(LoginErrors(m)))
    else
      var loaded := LoadUsers(users, seedFails);
      match FindUser(loaded.0, m.username)
      case None =>
        (values, loaded.1, LoginUnknownUser("Access denied: User '" + m.username + "' not found in OmniScan database"))
      case Some(i) =>
        var u := loaded.0[i];
        if u.password != m.password then
          (values, loaded.1, LoginWrongPassword("Invalid credentials for chip monitoring access"))
        else
          (SignedIn(values, m.username, u), loaded.1, if IsAdmin(u) then LoginToDashboard else LoginToTwoFactor)
  }

  /** A login that fails, for an invalid form, an unknown name or a wrong
      password, leaves the session as it was. */
  lemma LoginFailuresKeepSession(values: Values, users: Store<User>, seedFails: bool, m: LoginModel)
    ensures var r := LoginStep(values, users, seedFails, m);
      !(r.2.LoginToDashboard? || r.2.LoginToTwoFactor?) ==> r.0 == values
    ensures var r := LoginStep(values, users, seedFails, m);
      r.2.LoginUnknownUser? ==> FindUser(LoadUsers(users, seedFails).0, m.username).None?
    ensures var r := LoginStep(values, users, seedFails, m);
      r.2.LoginWrongPassword? ==>
        var i := FindUser(LoadUsers(users, seedFails).0, m.username); i.Some? && LoadUsers(users, seedFails).0[i.value].password != m.password
  {
  }

  /** The unknown-user message names the user, telling apart unknown names from wrong passwords. */
  lemma UnknownUserNamed(values: Values, users: Store<User>, seedFails: bool, m: LoginModel)
    requires LoginStep(values, users, seedFails, m).2.LoginUnknownUser?
    ensures Contains(LoginStep(values, users, seedFails, m).2.message, m.username)
  {
    var message := LoginStep(values, users, seedFails, m).2.message;
    var pre := "Access denied: User '";
    assert message == pre + m.username + "' not found in OmniScan database";
    assert message[|pre|..|pre| + |m.username|] == m.username;
    assert OccursAt(message, m.username, |pre|);
  }

  /** Correct credentials record the user name and role; the session becomes
      fully authenticated exactly for an administrator, and for anyone else the
      FullyAuthenticated and ChipAccessLevel keys stay as they were. */
  lemma LoginSucceeds(values: Values, users: Store<User>, seedFails: bool, m: LoginModel)
    requires LoginErrors(m) == []
    requires var i := FindUser(LoadUsers(users, seedFails).0, m.username);
      i.Some? && LoadUsers(users, seedFails).0[i.value].password == m.password
    ensures var r := LoginStep(values, users, seedFails, m);
      var u := LoadUsers(users, seedFails).0[FindUser(LoadUsers(users, seedFails).0, m.username).value];
      r.0[AuthenticatedUserKey] == Text(m.username) && r.0[UserRoleKey] == Text(u.role) &&
      (IsAdmin(u) ==> r.2 == LoginToDashboard && IsUserAuthenticated(r.0) && r.0[ChipAccessLevelKey] == Text("monitoring")) &&
      (!IsAdmin(u) ==>
        (r.2 == LoginToTwoFactor &&
         GetString(r.0, FullyAuthenticatedKey) == GetString(values, FullyAuthenticatedKey) &&
         GetString(r.0, ChipAccessLevelKey) == GetString(values, ChipAccessLevelKey)))
  {
  }

  /** The default administrator signs in without a second factor. */
  lemma DefaultAdminSkipsTwoFactor(values: Values)
    ensures var r := LoginStep(values, Absent, false, LoginModel("admin", "chipmaster123"));
      r.2 == LoginToDashboard && IsUserAuthenticated(r.0) && r.1 == Stored(DefaultUsers)
  {
    assert !IsWhiteSpace("admin"[0]) && !IsWhiteSpace("chipmaster123"[0]);
  }

  /** When a missing users.json cannot be written, nobody signs in, not even
      the default administrator, and the file stays missing. */
  lemma FailedSeedLocksEveryoneOut(values: Values, m: LoginModel)
    ensures var r := LoginStep(values, Absent, true, m);
      r.0 == values && r.1 == Absent && !(r.2.LoginToDashboard? || r.2.LoginToTwoFactor?) &&
      (LoginErrors(m) == [] ==> r.2.LoginUnknownUser?)
  {
  }

  datatype TwoFactorOutcome =
    | TwoFactorToLogin
    | TwoFactorRejected(revealedCode: string)
    | TwoFactorToDashboard(revealedCode: string)

  /** TwoFactor (POST): the expected code is sent back in a response header
      whatever the submitted code; the form's validation is not consulted. */
  function TwoFactorStep(values: Values, m: TwoFactorModel, hashOf: string -> int): (Values, TwoFactorOutcome) {
    if IsNullOrEmptyAt(values, AuthenticatedUserKey) then (values, TwoFactorToLogin)
    else
      var expected := ExpectedCode(GetString(values, AuthenticatedUserKey).value, hashOf);
      if m.code != expected then (values, TwoFactorRejected(expected))
      else (values[FullyAuthenticatedKey := Text("true")][ChipAccessLevelKey := Text("monitoring")],
            TwoFactorToDashboard(expected))
  }

  /** Without a signed-in user name the second factor sends the browser back to
      Login; a wrong code changes nothing; the code derived from the signed-in
      name completes the authentication. */
  lemma TwoFactorRules(values: Values, m: TwoFactorModel, hashOf: string -> int)
    ensures IsNullOrEmptyAt(values, AuthenticatedUserKey) ==> TwoFactorStep(values, m, hashOf) == (values, TwoFactorToLogin)
    ensures var r := TwoFactorStep(values, m, hashOf);
      r.1.TwoFactorRejected? ==> r.0 == values && m.code != r.1.revealedCode
    ensures var r := TwoFactorStep(values, m, hashOf);
      r.1.TwoFactorToDashboard? <==>
        !IsNullOrEmptyAt(values, AuthenticatedUserKey) &&
        m.code == ExpectedCode(GetString(values, AuthenticatedUserKey).value, hashOf)
    ensures var r := TwoFactorStep(values, m, hashOf);
      r.1.TwoFactorToDashboard? ==>
        (IsUserAuthenticated(r.0) && r.0[ChipAccessLevelKey] == Text("monitoring") &&
         r.0[AuthenticatedUserKey] == values[AuthenticatedUserKey])
    ensures var r := TwoFactorStep(values, m, hashOf);
      !r.1.TwoFactorToLogin? ==>
        !IsNullOrEmptyAt(values, AuthenticatedUserKey) &&
        r.1.revealedCode == ExpectedCode(GetString(values, AuthenticatedUserKey).value, hashOf)
  {
  }

  /** The code revealed with a rejection is accepted when it is sent back. */
  lemma {:induction false} RevealedCodePasses(values: Values, m: TwoFactorModel, hashOf: string -> int)
    requires TwoFactorStep(values, m, hashOf).1.TwoFactorRejected?
    ensures var code := TwoFactorStep(values, m, hashOf).1.revealedCode;
      TwoFactorStep(values, TwoFactorModel(m.username, code), hashOf).1 == TwoFactorToDashboard(code)
  {
    TwoFactorRules(values, m, hashOf);
  }

  /** A submitted code that is not four digits, or is 9999, never passes. */
  lemma TwoFactorRejectsImpossibleCodes(values: Values, m: TwoFactorModel, hashOf: string -> int)
    requires |m.code| != 4 || !AllDigits(m.code) || m.code == "9999"
    ensures !TwoFactorStep(values, m, hashOf).1.TwoFactorToDashboard?
  {
    if !IsNullOrEmptyAt(values, AuthenticatedUserKey) {
      CodeNeverAllNines(hashOf(GetString(values, AuthenticatedUserKey).value));
    }
  }

  /** Logout clears the session. */
  function LogoutStep(values: Values): (r: Values)
    ensures r == map[] && !IsUserAuthenticated(r)
  {
    map[]
  }

  /** A session in which full authentication comes with a signed-in user name
      and the monitoring access level. */
  predicate Consistent(values: Values) {
    IsUserAuthenticated(values) ==>
      !IsNullOrEmptyAt(values, AuthenticatedUserKey) && values.Keys >= {ChipAccessLevelKey} &&
      values[ChipAccessLevelKey] == Text("monitoring")
  }

  /** Login keeps a consistent session consistent: it grants full
      authentication only together with a (validated, so non-empty) user name
      and the access level. */
  lemma LoginKeepsConsistent(values: Values, users: Store<User>, seedFails: bool, m: LoginModel)
    requires Consistent(values)
    ensures Consistent(LoginStep(values, users, seedFails, m).0)
  {
    assert Missing("");
    var loaded := LoadUsers(users, seedFails);
    var i := FindUser(loaded.0, m.username);
    if LoginErrors(m) == [] && i.Some? {
      SignedInConsistent(values, m.username, loaded.0[i.value]);
    }
  }

  lemma SignedInConsistent(values: Values, name: string, u: User)
    requires Consistent(values) && name != ""
    ensures Consistent(SignedIn(values, name, u))
  {
  }

  /** The second factor keeps a consistent session consistent. */
  lemma TwoFactorKeepsConsistent(values: Values, m: TwoFactorModel, hashOf: string -> int)
    requires Consistent(values)
    ensures Consistent(TwoFactorStep(values, m, hashOf).0)
  {
  }

  /** DisableChip, which only touches its failed-attempt counter, keeps a
      consistent session consistent. */
  lemma DisableKeepsConsistent(values: Values, chips: Store<Chip>, m: DisableChipModel, now: Time)
    requires Consistent(values)
    ensures Consistent(Disable(values, chips, m, now).0)
  {
    DisableKeepsAuthentication(values, chips, m, now, FullyAuthenticatedKey);
    DisableKeepsAuthentication(values, chips, m, now, AuthenticatedUserKey);
    DisableKeepsAuthentication(values, chips, m, now, ChipAccessLevelKey);
  }

  /** Login (POST) over the session object. */
  method Login(session: Session, users: Store<User>, seedFails: bool, m: LoginModel) returns (saved: Store<User>, outcome: LoginOutcome)
    modifies session
    ensures (session.values, saved, outcome) == LoginStep(old(session.values), users, seedFails, m)
  {
    var errors := LoginErrors(m);
    if errors != [] {
      return users, LoginInvalid(errors);
    }
    var loaded := LoadUsers(users, seedFails);
    saved := loaded.1;
    var found := FindUser(loaded.0, m.username);
    if found.None? {
      return saved, LoginUnknownUser("Access denied: User '" + m.username + "' not found in OmniScan database");
    }
    var user := loaded.0[found.value];
    if user.password != m.password {
      return saved, LoginWrongPassword("Invalid credentials for chip monitoring access");
    }
    session.SetString(AuthenticatedUserKey, m.username);
    session.SetString(UserRoleKey, user.role);
    if user.role == "admin" {
      session.SetString(FullyAuthenticatedKey, "true");
      session.SetString(ChipAccessLevelKey, "monitoring");
      return saved, LoginToDashboard;
    }
    return saved, LoginToTwoFactor;
  }

  /** TwoFactor (POST) over the session object. */
  method TwoFactor(session: Session, m: TwoFactorModel, hashOf: string -> int) returns (outcome: TwoFactorOutcome)
    modifies session
    ensures (session.values, outcome) == TwoFactorStep(old(session.values), m, hashOf)
  {
    var username := GetString(session.values, AuthenticatedUserKey);
    if username.None? || username.value == "" {
      return TwoFactorToLogin;
    }
    var expectedCode := ExpectedCode(username.value, hashOf);
    if m.code != expectedCode {
      return TwoFactorRejected(expectedCode);
    }
    session.SetString(FullyAuthenticatedKey, "true");
    session.SetString(ChipAccessLevelKey, "monitoring");
    return TwoFactorToDashboard(expectedCode);
  }

  method Logout(session: Session)
    modifies session
    ensures session.values == LogoutStep(old(session.values))
  {
    session.Clear();
  }
}
