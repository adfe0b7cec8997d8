/** The stand-alone sign-in action: the users router's sign-in with every outcome sent as
    HTTP 200, so the client tells them apart only by `code`. */
module SigninAction {
  import opened Common
  import opened Schema
  import opened UserTable

  /** POST /: exactly one row must carry the trimmed email and the password must match its
      digest; then the session username becomes that row's email. A lookup query that
      throws (`queryFails`) is answered with LOGIN_ERROR and leaves the session alone. */
  method SignIn(store: UserStore, email: string, password: string, queryFails: bool) returns (r: Reply<Profile>)
    modifies store`session
    ensures r.status == 200
    ensures queryFails ==>
      r == Failure(200, "LOGIN_ERROR", "Error while logging in", CaughtError)
      && store.session == old(store.session)
    ensures !queryFails ==> match SignInOutcomeOf(store.users, email, password)
      case UserNotFound =>
        r == Failure(200, "USER_NOT_FOUND", "Error while logging in", "User not found")
        && store.session == old(store.session)
      case WrongPassword =>
        r == Failure(200, "WRONG_PASSWORD", "Error while logging in", "Wrong password")
        && store.session == old(store.session)
      case SignedIn(u) =>
        r == Success(200, "LOGIN_SUCCESSFUL", "User logged in successfully", ProfileOf(u))
        && store.session == Some(u.email)
  {
    if queryFails {
      return Failure(200, "LOGIN_ERROR", "Error while logging in", CaughtError);
    }
    var rows := WithEmail(store.users, Trim(email));
    if |rows| != 1 {
      return Failure(200, "USER_NOT_FOUND", "Error while logging in", "User not found");
    }
    if !Compare(password, rows[0].password) {
      return Failure(200, "WRONG_PASSWORD", "Error while logging in", "Wrong password");
    }
    store.session := Some(rows[0].email);
    r := Success(200, "LOGIN_SUCCESSFUL", "User logged in successfully", ProfileOf(rows[0]));
  }
}
