/** The stand-alone sign-in page: its two checks and the submitting flag around `login`. */
module SignInPage {
  import opened Wrappers
  import opened Text
  import AuthPage

  datatype SignInError = InvalidEmail | ShortPassword

  /** `handleSignIn`'s checks: the email first, then the password. */
  function Check(email: string, password: string): (err: Option<SignInError>)
    ensures err == Some(InvalidEmail) <==> email == "" || !Contains(email, "@")
    ensures err == Some(ShortPassword) <==> email != "" && Contains(email, "@") && (password == "" || |password| < 6)
    ensures err.None? <==> '@' in email && |password| >= 6
  {
    ContainsChar(email, '@');
    if email == "" || !Contains(email, "@") then Some(InvalidEmail)
    else if password == "" || |password| < 6 then Some(ShortPassword)
    else None
  }

  /** This page and the sign-in tab of the combined page accept exactly the same credentials. */
  lemma AcceptsLikeAuthPage(email: string, password: string)
    ensures Check(email, password).None? <==> AuthPage.SignInError(email, password).None?
  {
    AuthPage.SignInAccepts(email, password);
  }

  class Page {
    var email: string
    var password: string
    var isSubmitting: bool
    var showPassword: bool

    constructor ()
      ensures email == "" && password == "" && !isSubmitting && !showPassword
    {
      email, password, isSubmitting, showPassword := "", "", false, false;
    }

    method TogglePasswordVisibility()
      modifies this
      ensures showPassword == !old(showPassword)
      ensures email == old(email) && password == old(password) && isSubmitting == old(isSubmitting)
    {
      showPassword := !showPassword;
    }

    /**
     * `handleSignIn` with `outcome` the awaited `login`: `login` is called once exactly when
     * both checks pass, with the flag set; afterwards the flag is clear.
     */
    method HandleSignIn(outcome: AuthPage.CallOutcome) returns (called: bool, flagDuringCall: bool)
      modifies this
      ensures called <==> Check(old(email), old(password)).None?
      ensures called ==> flagDuringCall
      ensures called ==> !isSubmitting
      ensures !called ==> isSubmitting == old(isSubmitting)
      ensures email == old(email) && password == old(password) && showPassword == old(showPassword)
    {
      called, flagDuringCall := false, false;
      if Check(email, password).Some? {
        return;
      }
      isSubmitting := true;
      called, flagDuringCall := true, isSubmitting;
      isSubmitting := false;
    }
  }
}
