/** The handlers of the users router: sign-up, sign-in and logout change the users table
    or the session; `/myself` is `MyselfAction.Myself`. In this router every domain error
    answers HTTP 422. */
module UsersRoute {
  import opened Common
  import opened Schema
  import opened UserTable
  import MyselfAction

  /** POST /signup. The existence check uses the trimmed email; the inserted row keeps the
      email as submitted and the bcrypt digest of the password. A success's details are the
      insert's row count, which the handler has checked is 1; the source sends the driver's
      whole result object there. */
  method SignUp(store: UserStore, req: SignUpRequest, salt: nat, hashFails: bool) returns (r: Reply<nat>)
    requires store.Valid()
    modifies store`users, store`nextId
    ensures store.Valid()
    ensures store.users == SignUpUsers(old(store.users), SignUpOutcomeOf(old(store.users), old(store.nextId), req, salt, hashFails))
    ensures EmailTaken(old(store.users), Trim(req.email)) ==>
      r == Failure(422, "USER_EXISTS", "Error while inserting new user", "User already exists")
    ensures !EmailTaken(old(store.users), Trim(req.email)) && hashFails ==>
      r == Failure(422, "REGISTRATION_ERROR", "Error while inserting new user", CaughtError)
    ensures !EmailTaken(old(store.users), Trim(req.email)) && !hashFails ==>
      && store.users == old(store.users) + [User(old(store.nextId), req.firstName, req.lastName, req.email, Hash(req.password, salt))]
      && r == Success(200, "REGISTRATION_SUCCESSFUL", "New user saved successfully", 1)
  {
    var taken := EmailTaken(store.users, Trim(req.email));
    if taken {
      return Failure(422, "USER_EXISTS", "Error while inserting new user", "User already exists");
    }
    if hashFails {
      return Failure(422, "REGISTRATION_ERROR", "Error while inserting new user", CaughtError);
    }
    var user := User(store.nextId, req.firstName, req.lastName, req.email, Hash(req.password, salt));
    store.users := store.users + [user];
    store.nextId := store.nextId + 1;
    r := Success(200, "REGISTRATION_SUCCESSFUL", "New user saved successfully", 1);
  }

  /** POST /signin. Exactly one row must carry the trimmed email; on a matching password
      the session username becomes that row's email. The table never changes. A lookup
      query that throws (`queryFails`) is answered with LOGIN_ERROR. */
  method SignIn(store: UserStore, email: string, password: string, queryFails: bool) returns (r: Reply<Profile>)
    modifies store`session
    ensures queryFails ==>
      r == Failure(422, "LOGIN_ERROR", "Error while logging in", CaughtError) && store.session == old(store.session)
    ensures !queryFails ==> var rows := WithEmail(store.users, Trim(email));
      && (|rows| != 1 ==>
            r == Failure(422, "USER_NOT_FOUND", "Error while logging in", "User not found")
            && store.session == old(store.session))
      && (|rows| == 1 && !Compare(password, rows[0].password) ==>
            r == Failure(422, "WRONG_PASSWORD", "Error while logging in", "Wrong password")
            && store.session == old(store.session))
      && (|rows| == 1 && Compare(password, rows[0].password) ==>
            store.session == Some(rows[0].email)
            && r == Success(200, "LOGIN_SUCCESSFUL", "User logged in successfully", ProfileOf(rows[0])))
    ensures r.Success? <==> !queryFails && SignInOutcomeOf(store.users, email, password).SignedIn?
  {
    if queryFails {
      return Failure(422, "LOGIN_ERROR", "Error while logging in", CaughtError);
    }
    var rows := WithEmail(store.users, Trim(email));
    if |rows| != 1 {
      return Failure(422, "USER_NOT_FOUND", "Error while logging in", "User not found");
    }
    if !Compare(password, rows[0].password) {
      return Failure(422, "WRONG_PASSWORD", "Error while logging in", "Wrong password");
    }
    store.session := Some(rows[0].email);
    r := Success(200, "LOGIN_SUCCESSFUL", "User logged in successfully", ProfileOf(rows[0]));
  }

  /** GET /logout: destroys the session, unless the session store reports an error. */
  method Logout(store: UserStore, destroyFails: bool) returns (r: Reply<string>)
    modifies store`session
    ensures destroyFails ==>
      r == Failure(422, "LOGOUT_ERROR", "Error while logging out", CaughtError) && store.session == old(store.session)
    ensures !destroyFails ==>
      r == Success(200, "LOGGED_OUT", "User logged out", "") && store.session == None
  {
    if destroyFails {
      return Failure(422, "LOGOUT_ERROR", "Error while logging out", CaughtError);
    }
    store.session := None;
    r := Success(200, "LOGGED_OUT", "User logged out", "");
  }

  // ---------------------------------------------------------------------------
  // Properties across handlers
  // ---------------------------------------------------------------------------

  /** After a successful sign-in the session username finds the same user's profile. */
  lemma SignInThenMyself(users: seq<User>, email: string, password: string)
    requires SignInOutcomeOf(users, email, password).SignedIn?
    ensures var u := SignInOutcomeOf(users, email, password).user;
      MyselfAction.Myself(users, Some(u.email), false)
        == Success(200, "GET_USER_SUCCESS", "Successfully retrieved user information", ProfileOf(u))
  {
    var rows := WithEmail(users, Trim(email));
    assert rows[0] in rows;
  }

  /** As written, sign-up stores the email untrimmed while sign-in looks it up trimmed: an
      email with surrounding white space is registered but can never sign in. */
  lemma {:induction false} PaddedSignUpNeverSignsIn(users: seq<User>, nextId: nat, req: SignUpRequest, salt: nat, password: string)
    requires Trim(req.email) != req.email
    requires SignUpOutcomeOf(users, nextId, req, salt, false).Inserted?
    ensures SignInOutcomeOf(SignUpUsers(users, SignUpOutcomeOf(users, nextId, req, salt, false)), req.email, password)
      == UserNotFound
  {
    var u := SignUpOutcomeOf(users, nextId, req, salt, false).user;
    WithEmailAppend(users, u, Trim(req.email));
    EmailTakenIffRows(users, Trim(req.email));
  }

  /** The concrete input: " a@b.c" registers, and signing in with it finds no user. */
  lemma PaddedSignUpExample()
    ensures var req := SignUpRequest("Ada", "Lovelace", " a@b.c", "secret");
      && SignUpOutcomeOf([], 1, req, 0, false).Inserted?
      && SignInOutcomeOf(SignUpUsers([], SignUpOutcomeOf([], 1, req, 0, false)), " a@b.c", "secret") == UserNotFound
  {
    var req := SignUpRequest("Ada", "Lovelace", " a@b.c", "secret");
    var e := req.email;
    assert IsJsWhitespace(e[0]) && e[1..] == "a@b.c";
    assert !IsJsWhitespace('a') && !IsJsWhitespace('c');
    assert TrimStart("a@b.c") == "a@b.c";
    assert Trim(e) == "a@b.c";
    PaddedSignUpNeverSignsIn([], 1, req, 0, "secret");
  }

  /** The corrected sign-up: the row stores the trimmed email that the check used. */
  function SignUpOutcomeTrimmed(users: seq<User>, nextId: nat, req: SignUpRequest, salt: nat, hashFails: bool): (o: SignUpOutcome)
    ensures o.UserExists? <==> EmailTaken(users, Trim(req.email))
    ensures o.Inserted? ==> o.user == User(nextId, req.firstName, req.lastName, Trim(req.email), Hash(req.password, salt))
  {
    if EmailTaken(users, Trim(req.email)) then UserExists
    else if hashFails then HashFailed
    else Inserted(User(nextId, req.firstName, req.lastName, Trim(req.email), Hash(req.password, salt)))
  }

  /** With the corrected sign-up, registering and then signing in with the same email and
      password always succeeds and returns the new row. */
  lemma {:induction false} TrimmedSignUpThenSignIn(users: seq<User>, nextId: nat, req: SignUpRequest, salt: nat)
    requires SignUpOutcomeTrimmed(users, nextId, req, salt, false).Inserted?
    ensures var o := SignUpOutcomeTrimmed(users, nextId, req, salt, false);
      SignInOutcomeOf(SignUpUsers(users, o), req.email, req.password) == SignedIn(o.user)
  {
    var u := SignUpOutcomeTrimmed(users, nextId, req, salt, false).user;
    TrimIdempotent(req.email);
    WithEmailAppend(users, u, Trim(req.email));
    EmailTakenIffRows(users, Trim(req.email));
    CompareHash(req.password, req.password, salt);
  }
}
