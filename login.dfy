/** The login form of `Login.jsx`: credentials are checked against a fixed
    table of demo accounts, and a successful login writes the session record
    to local storage and hands the account to the application shell. */
module Login {
  import opened Js

  /** A demo account. */
  datatype DemoUser = DemoUser(id: string, password: string, name: string)

  /** The record stored under `sneho_user` after a successful login. */
  datatype Session = Session(id: string, name: string, loginTime: string, isOnline: bool)

  /** The demo accounts, in table order. */
  const DemoUsers: seq<DemoUser> := [
    DemoUser("sneho001", "sneho123", "আরিফ আহমেদ"),
    DemoUser("sneho002", "sneho123", "ফাতেমা বেগম"),
    DemoUser("sneho003", "sneho123", "রহিম উদ্দিন"),
    DemoUser("admin", "admin123", "এডমিন")
  ]

  /** The message shown when no account matches. */
  const WrongCredentials: string := "ভুল ইউজার আইডি বা পাসওয়ার্ড!"

  /** The test of the credential `find`: both id and password match. */
  predicate Matches(id: string, password: string, u: DemoUser)
  {
    u.id == id && u.password == password
  }

  /** Row `i` is the first demo account matching the credentials. */
  predicate FirstMatch(id: string, password: string, i: int)
  {
    0 <= i < |DemoUsers| && Matches(id, password, DemoUsers[i])
    && forall j :: 0 <= j < i ==> !Matches(id, password, DemoUsers[j])
  }

  /** The credential lookup: the first demo account whose id and password
      both match, if any does. */
  function Authenticate(id: string, password: string): (r: Option<DemoUser>)
    ensures r.None? <==> forall i :: 0 <= i < |DemoUsers| ==> !Matches(id, password, DemoUsers[i])
    ensures r.Some? ==> exists i :: FirstMatch(id, password, i) && DemoUsers[i] == r.value
  {
    Find(u => Matches(id, password, u), DemoUsers)
  }

  /** Every demo account can log in with its own credentials, and gets its
      own record back (the ids are distinct, so no earlier row shadows it). */
  lemma AuthenticateDemoUser(i: int)
    requires 0 <= i < |DemoUsers|
    ensures Authenticate(DemoUsers[i].id, DemoUsers[i].password) == Some(DemoUsers[i])
  {
    var u := DemoUsers[i];
    var r := Authenticate(u.id, u.password);
    assert Matches(u.id, u.password, DemoUsers[i]);
    var k :| FirstMatch(u.id, u.password, k) && DemoUsers[k] == r.value;
    assert DemoUsers[k].id == DemoUsers[i].id;
  }

  /** The session record a successful login stores. */
  function SessionOf(u: DemoUser, loginTime: string): (s: Session)
    ensures s.id == u.id && s.name == u.name && s.loginTime == loginTime && s.isOnline
  {
    Session(u.id, u.name, loginTime, true)
  }

  /** The login form's state together with the local-storage entry it writes. */
  class LoginForm {
    var userId: string
    var password: string
    var isLoading: bool
    var error: string
    /** The `sneho_user` entry of local storage. */
    var stored: Option<Session>

    constructor (stored: Option<Session>)
      ensures userId == "" && password == "" && !isLoading && error == ""
      ensures this.stored == stored
    {
      userId := "";
      password := "";
      isLoading := false;
      error := "";
      this.stored := stored;
    }

    /** `handleLogin`, with the simulated delay collapsed: the error is
        cleared, the credentials are looked up, and on a match the session is
        stored and the account returned (it is what `onLogin` receives); on a
        mismatch the error message is set and nothing is stored. Loading is
        over after both outcomes. `loginTime` is the clock reading
        `new Date().toISOString()` takes. */
    method HandleLogin(loginTime: string) returns (loggedIn: Option<DemoUser>)
      modifies this`isLoading, this`error, this`stored
      ensures loggedIn == Authenticate(userId, password)
      ensures loggedIn.Some? ==> stored == Some(SessionOf(loggedIn.value, loginTime)) && error == ""
      ensures loggedIn.None? ==> stored == old(stored) && error == WrongCredentials
      ensures !isLoading
    {
      isLoading := true;
      error := "";
      var user := Authenticate(userId, password);
      if user.Some? {
        stored := Some(SessionOf(user.value, loginTime));
        loggedIn := user;
      } else {
        error := WrongCredentials;
        loggedIn := None;
      }
      isLoading := false;
    }

    /** `handleDemoLogin`: the form is filled with the given credentials and
        the lookup runs at once; a mismatch does nothing further, and neither
        the error nor the loading flag is touched. */
    method HandleDemoLogin(demoId: string, demoPassword: string, loginTime: string) returns (loggedIn: Option<DemoUser>)
      modifies this`userId, this`password, this`stored
      ensures userId == demoId && password == demoPassword
      ensures loggedIn == Authenticate(demoId, demoPassword)
      ensures loggedIn.Some? ==> stored == Some(SessionOf(loggedIn.value, loginTime))
      ensures loggedIn.None? ==> stored == old(stored)
    {
      userId := demoId;
      password := demoPassword;
      loggedIn := Authenticate(demoId, demoPassword);
      if loggedIn.Some? {
        stored := Some(SessionOf(loggedIn.value, loginTime));
      }
    }
  }
}
