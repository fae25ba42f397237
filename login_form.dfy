/** The login card: a stricter email check, the password length, and the submitting flag. */
module LoginFormView {
  import opened Wrappers
  import opened Text
  import AuthPage
  import SignInPage

  datatype LoginError = InvalidEmail | ShortPassword

  /** `handleLogin`'s checks: an '@' and a '.' in the email, then six characters of password. */
  function Check(email: string, password: string): (err: Option<LoginError>)
    ensures err == Some(InvalidEmail) <==> '@' !in email || '.' !in email
    ensures err == Some(ShortPassword) <==> '@' in email && '.' in email && |password| < 6
    ensures err.None? <==> '@' in email && '.' in email && |password| >= 6
  {
    ContainsChar(email, '@');
    ContainsChar(email, '.');
    if !Contains(email, "@") || !Contains(email, ".") then Some(InvalidEmail)
    else if |password| < 6 then Some(ShortPassword)
    else None
  }

  /** Whatever the login card accepts, the sign-in page accepts too, but not the other way round. */
  lemma StricterThanSignIn(email: string, password: string)
    ensures Check(email, password).None? ==> SignInPage.Check(email, password).None?
    ensures SignInPage.Check("a@b", "secret").None? && Check("a@b", "secret") == Some(InvalidEmail)
  {
    assert '.' !in "a@b";
    assert '@' == "a@b"[1];
  }

  class Form {
    var email: string
    var password: string
    var isSubmitting: bool

    constructor ()
      ensures email == "" && password == "" && !isSubmitting
    {
      email, password, isSubmitting := "", "", false;
    }

    /** `handleLogin` with `outcome` the awaited `login`; the flag is cleared in `finally`. */
    method HandleLogin(outcome: AuthPage.CallOutcome) returns (called: bool, flagDuringCall: bool)
      modifies this
      ensures called <==> Check(old(email), old(password)).None?
      ensures called ==> flagDuringCall && !isSubmitting
      ensures !called ==> isSubmitting == old(isSubmitting)
      ensures email == old(email) && password == old(password)
    {
      called, flagDuringCall := false, false;
      if Check(email, password).Some? {
        return;
      }
      isSubmitting := true;
      called, flagDuringCall := true, isSubmitting;
      isSubmitting := false;
    }
  }
}
