/** The sign-up page's guard before it submits the form. */
module RegisterForm {
  import EmailCheck

  /** `isFormFilled`: every text field is a non-empty string (JavaScript truthiness) and
      the password passed its validation. */
  function IsFormFilled(firstName: string, lastName: string, email: string, passwordIsValid: bool): (r: bool)
    ensures r <==> |firstName| > 0 && |lastName| > 0 && |email| > 0 && passwordIsValid
  {
    firstName != "" && lastName != "" && email != "" && passwordIsValid
  }

  /** The guard checks presence only: a blank or malformed address passes it, so the
      e-mail check is the only place an address's shape could be enforced. */
  lemma {:induction false} PresenceOnly()
    ensures IsFormFilled("a", "b", " ", true)
    ensures !EmailCheck.IsValidEmailAddress(" ")
  {
    EmailCheck.MalformedIsRejected(" ");
  }
}
