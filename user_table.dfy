/** The users table and the one-field session that the user routes share, with the
    table operations their handlers run: lookup by email, the sign-up insert, the sign-in
    check and the password rewrite. */
module UserTable {
  import opened Common
  import opened Schema

  /** The users table plus the session, which is either anonymous (`None`) or holds the
      username (an email) written at sign-in. */
  class UserStore {
    var users: seq<User>
    var session: Option<string>
    var nextId: nat

    /** Ids come from a serial column: increasing in insertion order and below `nextId`. */
    ghost predicate Valid()
      reads this
    {
      && (forall i :: 0 <= i < |users| ==> users[i].id < nextId)
      && (forall i, j :: 0 <= i < j < |users| ==> users[i].id < users[j].id)
    }

    constructor ()
      ensures Valid() && users == [] && session == None && nextId == 1
    {
      users, session, nextId := [], None, 1;
    }
  }

  /** The rows of `WHERE "email" = $1`, in table order. */
  function WithEmail(users: seq<User>, email: string): (r: seq<User>)
    ensures |r| <= |users|
    ensures forall u :: u in r <==> u in users && u.email == email
  {
    if users == [] then []
    else (if users[0].email == email then [users[0]] else []) + WithEmail(users[1..], email)
  }

  lemma {:induction false} WithEmailAppend(users: seq<User>, u: User, email: string)
    ensures WithEmail(users + [u], email) == WithEmail(users, email) + (if u.email == email then [u] else [])
  {
    if users != [] {
      assert (users + [u])[1..] == users[1..] + [u];
      WithEmailAppend(users[1..], u, email);
    }
  }

  /** `SELECT EXISTS(SELECT 1 FROM users WHERE "email" = $1)`. */
  predicate EmailTaken(users: seq<User>, email: string) {
    exists u :: u in users && u.email == email
  }

  lemma EmailTakenIffRows(users: seq<User>, email: string)
    ensures EmailTaken(users, email) <==> |WithEmail(users, email)| > 0
  {
    if |WithEmail(users, email)| > 0 {
      assert WithEmail(users, email)[0] in WithEmail(users, email);
    }
  }

  /** The id the transaction handlers read with `SELECT "id" FROM users WHERE "email" = $1`
      and `rows[0].id`. An anonymous session binds NULL, which matches no row. */
  function SessionUserId(users: seq<User>, session: Option<string>): (r: Option<nat>)
    ensures r.Some? <==> session.Some? && EmailTaken(users, session.value)
    ensures r.Some? ==> exists u :: u in users && u.email == session.value && u.id == r.value
  {
    if session.None? then None
    else
      var rows := WithEmail(users, session.value);
      EmailTakenIffRows(users, session.value);
      if |rows| == 0 then None
      else
        assert rows[0] in rows;
        Some(rows[0].id)
  }

  // ---------------------------------------------------------------------------
  // Profile lookup
  // ---------------------------------------------------------------------------

  /** The three columns the profile and sign-in replies expose; the password is not among them. */
  datatype Profile = Profile(firstName: string, lastName: string, email: string)

  function ProfileOf(u: User): (r: Profile) {
    Profile(u.firstName, u.lastName, u.email)
  }

  // ---------------------------------------------------------------------------
  // Sign-up
  // ---------------------------------------------------------------------------

  datatype SignUpRequest = SignUpRequest(firstName: string, lastName: string, email: string, password: string)

  /** What the sign-up handlers decide: the trimmed email is taken, bcrypt failed, or the
      row below is inserted. */
  datatype SignUpOutcome = UserExists | HashFailed | Inserted(user: User)

  /** The existence check runs on the trimmed email, but the row keeps the email as typed. */
  function SignUpOutcomeOf(users: seq<User>, nextId: nat, req: SignUpRequest, salt: nat, hashFails: bool): (o: SignUpOutcome)
    ensures o.UserExists? <==> EmailTaken(users, Trim(req.email))
    ensures o.HashFailed? <==> !EmailTaken(users, Trim(req.email)) && hashFails
    ensures o.Inserted? ==> o.user == User(nextId, req.firstName, req.lastName, req.email, Hash(req.password, salt))
  {
    if EmailTaken(users, Trim(req.email)) then UserExists
    else if hashFails then HashFailed
    else Inserted(User(nextId, req.firstName, req.lastName, req.email, Hash(req.password, salt)))
  }

  /** The table after sign-up: one row appended on `Inserted`, untouched otherwise. */
  function SignUpUsers(users: seq<User>, o: SignUpOutcome): (r: seq<User>) {
    if o.Inserted? then users + [o.user] else users
  }

  // ---------------------------------------------------------------------------
  // Sign-in
  // ---------------------------------------------------------------------------

  datatype SignInOutcome = UserNotFound | WrongPassword | SignedIn(user: User)

  /** The lookup runs on the trimmed email and must find exactly one row; then bcrypt
      compares the password with that row's digest. */
  function SignInOutcomeOf(users: seq<User>, email: string, password: string): (o: SignInOutcome)
    ensures o.UserNotFound? <==> |WithEmail(users, Trim(email))| != 1
    ensures o.WrongPassword? <==>
      |WithEmail(users, Trim(email))| == 1 && !Compare(password, WithEmail(users, Trim(email))[0].password)
    ensures o.SignedIn? ==> o.user in users && o.user.email == Trim(email) && Compare(password, o.user.password)
  {
    var rows := WithEmail(users, Trim(email));
    if |rows| != 1 then UserNotFound
    else
      assert rows[0] in rows;
      if !Compare(password, rows[0].password) then WrongPassword else SignedIn(rows[0])
  }

  // ---------------------------------------------------------------------------
  // Password update
  // ---------------------------------------------------------------------------

  /** `UPDATE users SET "password" = $1 WHERE "email" = $2` with $2 the session username. */
  function SetPassword(users: seq<User>, session: Option<string>, digest: Digest): (r: seq<User>)
    ensures |r| == |users|
    ensures forall i :: 0 <= i < |users| ==>
      r[i] == if session == Some(users[i].email) then users[i].(password := digest) else users[i]
  {
    if users == [] then []
    else
      [if session == Some(users[0].email) then users[0].(password := digest) else users[0]]
      + SetPassword(users[1..], session, digest)
  }

  /** Rewriting passwords and selecting by email commute: the update changes no email. */
  lemma {:induction false} WithEmailSetPassword(users: seq<User>, session: Option<string>, digest: Digest, email: string)
    ensures WithEmail(SetPassword(users, session, digest), email) == SetPassword(WithEmail(users, email), session, digest)
  {
    if users != [] {
      var u := users[0];
      var u' := if session == Some(u.email) then u.(password := digest) else u;
      var r := SetPassword(users, session, digest);
      assert r == [u'] + SetPassword(users[1..], session, digest);
      assert r[0] == u' && r[1..] == SetPassword(users[1..], session, digest);
      WithEmailSetPassword(users[1..], session, digest, email);
      var w := WithEmail(users, email);
      if u.email == email {
        assert w == [u] + WithEmail(users[1..], email);
        assert w[0] == u && w[1..] == WithEmail(users[1..], email);
      } else {
        assert w == WithEmail(users[1..], email);
      }
    }
  }

  /** The number of rows `SetPassword` touches: the update's `rowCount`. */
  function Affected(users: seq<User>, session: Option<string>): (r: nat) {
    if session.None? then 0 else |WithEmail(users, session.value)|
  }
}
