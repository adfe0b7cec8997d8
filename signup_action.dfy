/** The stand-alone sign-up action. It runs the same check and insert as the users router,
    but answers "user exists" with HTTP 200 and a failed hash or insert with HTTP 500. */
module SignupAction {
  import opened Common
  import opened Schema
  import opened UserTable

  /** POST /: the trimmed email decides whether the user exists; the row is inserted with
      the email as submitted. A success's details are the insert's row count, which the
      handler has checked is 1; the source sends the driver's whole result object there. */
  method SignUp(store: UserStore, req: SignUpRequest, salt: nat, hashFails: bool) returns (r: Reply<nat>)
    requires store.Valid()
    modifies store`users, store`nextId
    ensures store.Valid()
    ensures store.users == SignUpUsers(old(store.users), SignUpOutcomeOf(old(store.users), old(store.nextId), req, salt, hashFails))
    ensures EmailTaken(old(store.users), Trim(req.email)) ==>
      r == Failure(200, "USER_EXISTS", "Error while inserting new user", "User already exists")
    ensures !EmailTaken(old(store.users), Trim(req.email)) && hashFails ==>
      r == Failure(500, "REGISTRATION_ERROR", "Error while inserting new user", CaughtError)
    ensures !EmailTaken(old(store.users), Trim(req.email)) && !hashFails ==>
      && store.users == old(store.users) + [User(old(store.nextId), req.firstName, req.lastName, req.email, Hash(req.password, salt))]
      && r == Success(200, "REGISTRATION_SUCCESSFUL", "New user saved successfully", 1)
  {
    var taken := EmailTaken(store.users, Trim(req.email));
    if taken {
      return Failure(200, "USER_EXISTS", "Error while inserting new user", "User already exists");
    }
    if hashFails {
      return Failure(500, "REGISTRATION_ERROR", "Error while inserting new user", CaughtError);
    }
    var user := User(store.nextId, req.firstName, req.lastName, req.email, Hash(req.password, salt));
    store.users := store.users + [user];
    store.nextId := store.nextId + 1;
    r := Success(200, "REGISTRATION_SUCCESSFUL", "New user saved successfully", 1);
  }
}
