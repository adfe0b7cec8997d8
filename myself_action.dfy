/** GET /myself: the profile of the session user. */
module MyselfAction {
  import opened Common
  import opened Schema
  import opened UserTable

  /** Looks the session username up in the users table and answers with first name, last
      name and email only. An anonymous session binds NULL and so finds nobody. A query
      that throws (`queryFails`) is answered with LOGIN_ERROR and status 422. */
  function Myself(users: seq<User>, session: Option<string>, queryFails: bool): (r: Reply<Profile>)
    ensures queryFails ==> r == Failure(422, "LOGIN_ERROR", "Error while logging in", CaughtError)
    ensures r.Success? <==> !queryFails && session.Some? && EmailTaken(users, session.value)
    ensures r.Success? ==>
      && r.status == 200 && r.code == "GET_USER_SUCCESS"
      && exists u :: u in users && u.email == session.value && r.details == ProfileOf(u)
    ensures !queryFails && r.Failure? ==>
      r == Failure(422, "GET_USER_ERROR", "Error retrieving user information", "No user found")
  {
    if queryFails then
      Failure(422, "LOGIN_ERROR", "Error while logging in", CaughtError)
    else if session.None? then
      Failure(422, "GET_USER_ERROR", "Error retrieving user information", "No user found")
    else
      var rows := WithEmail(users, session.value);
      EmailTakenIffRows(users, session.value);
      if |rows| < 1 then
        Failure(422, "GET_USER_ERROR", "Error retrieving user information", "No user found")
      else
        assert rows[0] in rows;
        Success(200, "GET_USER_SUCCESS", "Successfully retrieved user information", ProfileOf(rows[0]))
  }
}
