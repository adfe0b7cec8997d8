/** The sign-in page's guard before it submits the form. */
module SigninForm {
  import RegisterForm

  /** `isFormFilled`: both fields are non-empty strings (JavaScript truthiness). */
  function IsFormFilled(email: string, password: string): (r: bool)
    ensures r <==> |email| > 0 && |password| > 0
  {
    email != "" && password != ""
  }

  /** Whoever got past the sign-up guard with some e-mail passes the sign-in guard with
      the same e-mail and any non-empty password. */
  lemma {:induction false} SignupThenSignin(firstName: string, lastName: string, email: string,
                                            passwordIsValid: bool, password: string)
    requires RegisterForm.IsFormFilled(firstName, lastName, email, passwordIsValid)
    requires password != ""
    ensures IsFormFilled(email, password)
  {
  }
}
