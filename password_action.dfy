/** PUT on the password action: rewrites the session user's password digest. */
module PasswordAction {
  import opened Common
  import opened Schema
  import opened UserTable

  /** Hashes the new password and runs `UPDATE ... WHERE "email" = session`. The update is
      committed before its row count is checked, so a count other than 1 still leaves the
      rewritten rows in place while the client is told the update failed. */
  method UpdatePassword(store: UserStore, password: string, salt: nat, hashFails: bool) returns (r: Reply<string>)
    requires store.Valid()
    modifies store`users
    ensures store.Valid()
    ensures hashFails ==>
      store.users == old(store.users)
      && r == Failure(500, "UPDATE_ERROR", "Error while updating user password", CaughtError)
    ensures !hashFails ==> store.users == SetPassword(old(store.users), store.session, Hash(password, salt))
    ensures !hashFails && Affected(old(store.users), store.session) != 1 ==>
      r == Failure(500, "UPDATE_ERROR", "Error while updating user password", CaughtError)
    ensures !hashFails && Affected(old(store.users), store.session) == 1 ==>
      r == Success(200, "UPDATE_PASSWORD_SUCCESS", "Successfully updated user password", "Rows affected: 1")
  {
    if hashFails {
      return Failure(500, "UPDATE_ERROR", "Error while updating user password", CaughtError);
    }
    var rowCount := Affected(store.users, store.session);
    store.users := SetPassword(store.users, store.session, Hash(password, salt));
    if rowCount != 1 {
      return Failure(500, "UPDATE_ERROR", "Error while updating user password", CaughtError);
    }
    assert NatToString(rowCount) == "1";
    assert "Rows affected: " + NatToString(rowCount) == "Rows affected: 1";
    r := Success(200, "UPDATE_PASSWORD_SUCCESS", "Successfully updated user password", "Rows affected: " + NatToString(rowCount));
  }

  /** After a successful update, signing in with the session email and the new password
      finds the user and accepts the password, provided the email has no surrounding
      white space (sign-in trims what it is given). */
  lemma {:induction false} UpdateThenSignIn(users: seq<User>, email: string, password: string, salt: nat)
    requires Affected(users, Some(email)) == 1
    requires Trim(email) == email
    ensures var after := SetPassword(users, Some(email), Hash(password, salt));
      && SignInOutcomeOf(after, email, password).SignedIn?
      && SignInOutcomeOf(after, email, password).user.email == email
  {
    var d := Hash(password, salt);
    WithEmailSetPassword(users, Some(email), d, email);
    var w := WithEmail(users, email);
    assert w[0] in w;
    var after := SetPassword(users, Some(email), d);
    assert WithEmail(after, email)[0] == w[0].(password := d);
    CompareHash(password, password, salt);
  }
}
