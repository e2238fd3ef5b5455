/** The login of the VulnerableLogin application: user name and password
    against users.json, then a second factor whose code is derived from the
    user name, then the dashboard. Login records only the user name;
    only the second factor sets FullyAuthenticated. users.json is only read:
    a missing or unreadable file means no users. */
module VulnerableAuth {
  import opened Text
  import opened JsonStore
  import opened Lists
  import opened HttpSession
  import opened TwoFactorCode

  const AuthenticatedUserKey := "AuthenticatedUser"
  const FullyAuthenticatedKey := "FullyAuthenticated"

  datatype User = User(username: string, password: string)

  datatype LoginModel = LoginModel(username: string, password: string)

  datatype TwoFactorModel = TwoFactorModel(code: string, username: string)

  /** Both fields of the login form are [Required]. */
  predicate LoginValid(m: LoginModel) {
    !IsNullOrWhiteSpace(m.username) && !IsNullOrWhiteSpace(m.password)
  }

  /** The first user with the given name. */
  function FindUser(users: seq<User>, name: string): (r: Option<nat>)
    ensures r.Some? ==> r.value < |users| && users[r.value].username == name
    ensures r.None? ==> forall j :: 0 <= j < |users| ==> users[j].username != name
  {
    IndexWhere(users, (u: User) => u.username == name)
  }

  datatype LoginOutcome =
    | LoginInvalid
    | LoginUnknownUser(message: string)
    | LoginWrongPassword(message: string)
    | LoginToTwoFactor

  /** Login (POST): the new session and the response. */
  function LoginStep(values: Values, users: Store<User>, m: LoginModel): (Values, LoginOutcome) {
    if !LoginValid(m) then (values, LoginInvalid)
    else
      var table := ItemsOrEmpty(users);
      match FindUser(table, m.username)
      case None => (values, LoginUnknownUser("Username '" + m.username + "' not found"))
      case Some(i) =>
        if table[i].password != m.password then (values, LoginWrongPassword("Invalid password for this user"))
        else (values[AuthenticatedUserKey := Text(m.username)], LoginToTwoFactor)
  }

  /** A failed login leaves the session as it was. A successful one records
      the user name and nothing else, so it never grants full authentication. */
  lemma LoginRules(values: Values, users: Store<User>, m: LoginModel)
    ensures var r := LoginStep(values, users, m);
      r.1 != LoginToTwoFactor ==> r.0 == values
    ensures var r := LoginStep(values, users, m);
      var table := ItemsOrEmpty(users);
      r.1 == LoginToTwoFactor <==>
        LoginValid(m) && FindUser(table, m.username).Some? && table[FindUser(table, m.username).value].password == m.password
    ensures var r := LoginStep(values, users, m);
      r.1 == LoginToTwoFactor ==>
        r.0 == values[AuthenticatedUserKey := Text(m.username)] &&
        GetString(r.0, FullyAuthenticatedKey) == GetString(values, FullyAuthenticatedKey)
  {
  }

  /** Without a readable users.json nobody can sign in. */
  lemma NoUsersNoLogin(values: Values, users: Store<User>, m: LoginModel)
    requires !users.Stored?
    ensures LoginStep(values, users, m).1 != LoginToTwoFactor
  {
  }

  datatype TwoFactorOutcome =
    | TwoFactorToLogin
    | TwoFactorRejected(revealedCode: string)
    | TwoFactorToDashboard(revealedCode: string)

  /** TwoFactor (POST): the expected code is sent back in a response header
      whatever the submitted code. */
  function TwoFactorStep(values: Values, m: TwoFactorModel, hashOf: string -> int): (Values, TwoFactorOutcome) {
    if IsNullOrEmptyAt(values, AuthenticatedUserKey) then (values, TwoFactorToLogin)
    else
      var expected := ExpectedCode(GetString(values, AuthenticatedUserKey).value, hashOf);
      if m.code != expected then (values, TwoFactorRejected(expected))
      else (values[FullyAuthenticatedKey := Text("true")], TwoFactorToDashboard(expected))
  }

  /** The second factor needs a signed-in user name; only the code derived
      from that name sets FullyAuthenticated, and it sets nothing else. */
  lemma TwoFactorRules(values: Values, m: TwoFactorModel, hashOf: string -> int)
    ensures IsNullOrEmptyAt(values, AuthenticatedUserKey) ==> TwoFactorStep(values, m, hashOf) == (values, TwoFactorToLogin)
    ensures var r := TwoFactorStep(values, m, hashOf);
      !r.1.TwoFactorToDashboard? ==> r.0 == values
    ensures var r := TwoFactorStep(values, m, hashOf);
      r.1.TwoFactorToDashboard? <==>
        !IsNullOrEmptyAt(values, AuthenticatedUserKey) &&
        m.code == ExpectedCode(GetString(values, AuthenticatedUserKey).value, hashOf)
    ensures var r := TwoFactorStep(values, m, hashOf);
      r.1.TwoFactorToDashboard? ==> r.0 == values[FullyAuthenticatedKey := Text("true")]
    ensures var r := TwoFactorStep(values, m, hashOf);
      !r.1.TwoFactorToLogin? ==>
        !IsNullOrEmptyAt(values, AuthenticatedUserKey) &&
        r.1.revealedCode == ExpectedCode(GetString(values, AuthenticatedUserKey).value, hashOf)
  {
  }

  /** The code revealed with a rejection is accepted when it is sent back. */
  lemma {:induction false} RevealedCodePasses(values: Values, m: TwoFactorModel, hashOf: string -> int)
    requires TwoFactorStep(values, m, hashOf).1.TwoFactorRejected?
    ensures var code := TwoFactorStep(values, m, hashOf).1.revealedCode;
      TwoFactorStep(values, TwoFactorModel(code, m.username), hashOf).1 == TwoFactorToDashboard(code)
  {
    TwoFactorRules(values, m, hashOf);
  }

  datatype DashboardOutcome = DashboardToLogin | DashboardView(username: Option<string>)

  /** Dashboard (GET): shown only to a fully authenticated session. */
  function DashboardStep(values: Values): (r: DashboardOutcome)
    ensures r.DashboardView? <==> FullyAuthenticatedKey in values && values[FullyAuthenticatedKey] == Text("true")
    ensures r.DashboardView? ==> r.username == GetString(values, AuthenticatedUserKey)
  {
    if !IsTrue(values, FullyAuthenticatedKey) then DashboardToLogin
    else DashboardView(GetString(values, AuthenticatedUserKey))
  }

  /** Logout clears the session. */
  function LogoutStep(values: Values): (r: Values)
    ensures r == map[] && DashboardStep(r) == DashboardToLogin
  {
    map[]
  }

  /** A fresh session reaches the dashboard through a successful login
      followed by the code derived from the name just entered, and the
      dashboard greets that name; login alone does not get there. */
  lemma {:induction false} LoginThenCodeReachesDashboard(users: Store<User>, m: LoginModel, hashOf: string -> int)
    requires LoginStep(map[], users, m).1 == LoginToTwoFactor
    ensures var afterLogin := LoginStep(map[], users, m).0;
      DashboardStep(afterLogin) == DashboardToLogin &&
      var code := ExpectedCode(m.username, hashOf);
      var r := TwoFactorStep(afterLogin, TwoFactorModel(code, ""), hashOf);
      r.1 == TwoFactorToDashboard(code) && DashboardStep(r.0) == DashboardView(Some(m.username))
  {
    var afterLogin := LoginStep(map[], users, m).0;
    assert afterLogin == map[AuthenticatedUserKey := Text(m.username)];
    assert m.username != "" by {
      assert IsNullOrWhiteSpace("");
    }
    assert GetString(afterLogin, AuthenticatedUserKey) == Some(m.username);
    assert FullyAuthenticatedKey != AuthenticatedUserKey;
  }

  /** Login (POST) over the session object. */
  method Login(session: Session, users: Store<User>, m: LoginModel) returns (outcome: LoginOutcome)
    modifies session
    ensures (session.values, outcome) == LoginStep(old(session.values), users, m)
  {
    if !LoginValid(m) {
      return LoginInvalid;
    }
    var table := ItemsOrEmpty(users);
    var found := FindUser(table, m.username);
    if found.None? {
      return LoginUnknownUser("Username '" + m.username + "' not found");
    }
    if table[found.value].password != m.password {
      return LoginWrongPassword("Invalid password for this user");
    }
    session.SetString(AuthenticatedUserKey, m.username);
    return LoginToTwoFactor;
  }

  /** TwoFactor (POST) over the session object. */
  method TwoFactor(session: Session, m: TwoFactorModel, hashOf: string -> int) returns (outcome: TwoFactorOutcome)
    modifies session
    ensures (session.values, outcome) == TwoFactorStep(old(session.values), m, hashOf)
  {
    var username := GetString(session.values, AuthenticatedUserKey);
    if username.None? || username.value == "" {
      return TwoFactorToLogin;
    }
    var expectedCode := ExpectedCode(username.value, hashOf);
    if m.code != expectedCode {
      return TwoFactorRejected(expectedCode);
    }
    session.SetString(FullyAuthenticatedKey, "true");
    return TwoFactorToDashboard(expectedCode);
  }

  method Logout(session: Session)
    modifies session
    ensures session.values == LogoutStep(old(session.values))
  {
    session.Clear();
  }
}
