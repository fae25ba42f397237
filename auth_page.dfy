/**
 * The sign-in / register page: the two input checks, and what submitting, registering and
 * the password toggle do to the page's state. What the account service answers is an input.
 */
module AuthPage {
  import opened Wrappers
  import opened Text

  /** What an awaited `login` or `register` call did: resolved true, resolved false, or threw. */
  datatype CallOutcome = Succeeded | Failed | Threw

  /** The toast a rejected form shows. */
  datatype FormError = FieldsMissing | InvalidEmail | ShortPassword

  datatype Tab = LoginTab | RegisterTab

  /** `handleSignIn`'s checks, in order. */
  function SignInError(email: string, password: string): (err: Option<FormError>)
    ensures err.None? <==> email != "" && password != "" && Contains(email, "@") && |password| >= 6
    ensures err == Some(FieldsMissing) <==> email == "" || password == ""
    ensures err == Some(InvalidEmail) <==> email != "" && password != "" && !Contains(email, "@")
  {
    if email == "" || password == "" then Some(FieldsMissing)
    else if !Contains(email, "@") then Some(InvalidEmail)
    else if |password| < 6 then Some(ShortPassword)
    else None
  }

  /** `handleRegister`'s checks: the same chain with the name required as well. */
  function RegisterError(name: string, email: string, password: string): (err: Option<FormError>)
    ensures err.None? <==> name != "" && SignInError(email, password).None?
    ensures name != "" ==> err == SignInError(email, password)
    ensures name == "" ==> err == Some(FieldsMissing)
  {
    if name == "" || email == "" || password == "" then Some(FieldsMissing)
    else if !Contains(email, "@") then Some(InvalidEmail)
    else if |password| < 6 then Some(ShortPassword)
    else None
  }

  /** The checks accept exactly an email with an '@' and a password of six characters or more. */
  lemma SignInAccepts(email: string, password: string)
    ensures SignInError(email, password).None? <==> '@' in email && |password| >= 6
  {
    ContainsChar(email, '@');
  }

  class Page {
    var activeTab: Tab
    var showPassword: bool
    var loginEmail: string
    var loginPassword: string
    var loginSubmitting: bool
    var registerName: string
    var registerEmail: string
    var registerPassword: string
    var registerSubmitting: bool

    constructor ()
      ensures activeTab == LoginTab && !showPassword && !loginSubmitting && !registerSubmitting
      ensures loginEmail == "" && loginPassword == "" && registerName == "" && registerEmail == "" && registerPassword == ""
    {
      activeTab := LoginTab;
      showPassword := false;
      loginEmail, loginPassword, loginSubmitting := "", "", false;
      registerName, registerEmail, registerPassword, registerSubmitting := "", "", "", false;
    }

    /** `togglePasswordVisibility()`. */
    method TogglePasswordVisibility()
      modifies this
      ensures showPassword == !old(showPassword)
      ensures activeTab == old(activeTab) && loginEmail == old(loginEmail) && loginPassword == old(loginPassword)
      ensures loginSubmitting == old(loginSubmitting) && registerSubmitting == old(registerSubmitting)
      ensures registerName == old(registerName) && registerEmail == old(registerEmail) && registerPassword == old(registerPassword)
    {
      showPassword := !showPassword;
    }

    /**
     * `handleSignIn` with `outcome` the awaited `login`: a rejected form calls nothing and
     * changes nothing; otherwise `login` is called with the two fields while the
     * submitting flag is set, the flag is cleared afterwards whatever the outcome, and
     * the page moves to the home screen only on success.
     */
    method HandleSignIn(outcome: CallOutcome) returns (called: bool, flagDuringCall: bool, navigate: bool)
      modifies this
      ensures called <==> SignInError(old(loginEmail), old(loginPassword)).None?
      ensures called ==> flagDuringCall && !loginSubmitting && (navigate <==> outcome == Succeeded)
      ensures !called ==> !navigate && loginSubmitting == old(loginSubmitting)
      ensures activeTab == old(activeTab) && showPassword == old(showPassword)
      ensures loginEmail == old(loginEmail) && loginPassword == old(loginPassword) && registerSubmitting == old(registerSubmitting)
      ensures registerName == old(registerName) && registerEmail == old(registerEmail) && registerPassword == old(registerPassword)
    {
      called, flagDuringCall, navigate := false, false, false;
      if SignInError(loginEmail, loginPassword).Some? {
        return;
      }
      loginSubmitting := true;
      called, flagDuringCall := true, loginSubmitting;
      if outcome == Succeeded {
        navigate := true;
      }
      loginSubmitting := false;
    }

    /**
     * `handleRegister` with `outcome` the awaited `register`: a rejected form calls nothing;
     * a successful registration opens the login tab with the registered email filled in
     * and clears the three register fields; a failure or a throw leaves the fields. The
     * submitting flag is set during the call and cleared after it.
     */
    method HandleRegister(outcome: CallOutcome) returns (called: bool, flagDuringCall: bool)
      modifies this
      ensures called <==> RegisterError(old(registerName), old(registerEmail), old(registerPassword)).None?
      ensures called ==> flagDuringCall && !registerSubmitting
      ensures !called ==> registerSubmitting == old(registerSubmitting)
      ensures called && outcome == Succeeded ==>
        activeTab == LoginTab && loginEmail == old(registerEmail) &&
        registerName == "" && registerEmail == "" && registerPassword == ""
      ensures !(called && outcome == Succeeded) ==>
        activeTab == old(activeTab) && loginEmail == old(loginEmail) &&
        registerName == old(registerName) && registerEmail == old(registerEmail) && registerPassword == old(registerPassword)
      ensures showPassword == old(showPassword) && loginPassword == old(loginPassword) && loginSubmitting == old(loginSubmitting)
    {
      called, flagDuringCall := false, false;
      if RegisterError(registerName, registerEmail, registerPassword).Some? {
        return;
      }
      registerSubmitting := true;
      called, flagDuringCall := true, registerSubmitting;
      if outcome == Succeeded {
        activeTab := LoginTab;
        loginEmail := registerEmail;
        registerName := "";
        registerEmail := "";
        registerPassword := "";
      }
      registerSubmitting := false;
    }
  }
}
