/**
 * The password-reset page (app/reset-password/page.tsx): the recovery
 * session check made when the page opens, which decides whether the form
 * is shown at all, the page's own copy of the password-strength rules,
 * and the reset handler.
 */
module ResetPassword {
  import opened Wrappers
  import opened JsString
  import Signup

  const InvalidLink := "Invalid or expired reset link. Please request a new password reset."
  const ResetFailed := "Failed to reset password. Please try again."

  /**
   * `validatePassword` as this page writes it: the same four checks, in
   * the same order and with the same messages, as the sign-up page's.
   */
  function ValidatePassword(pwd: string): (r: Option<string>)
    ensures r == Signup.ValidatePassword(pwd)
  {
    if Utf16Length(pwd) < 8 then Some(Signup.TooShort)
    else if !Signup.HasUpper(pwd) then Some(Signup.NoUppercase)
    else if !Signup.HasLower(pwd) then Some(Signup.NoLowercase)
    else if !Signup.HasDigit(pwd) then Some(Signup.NoNumber)
    else None
  }

  /** What the page renders. */
  datatype View = Verifying | ResetFormShown | InvalidLinkShown

  /** `error.message || 'Failed to reset password. …'`. */
  function FailureMessage(message: string): (m: string)
    ensures m != ""
    ensures message != "" ==> m == message
  {
    if message != "" then message else ResetFailed
  }

  class Page {
    var password: string
    var confirmPassword: string
    var loading: bool
    var error: string
    var success: bool
    var validToken: bool
    var checkingToken: bool

    constructor ()
      ensures password == "" && confirmPassword == ""
      ensures !loading && error == "" && !success
      ensures !validToken && checkingToken
    {
      password, confirmPassword := "", "";
      loading, error, success := false, "", false;
      validToken, checkingToken := false, true;
    }

    /** The spinner while checking, then the form only for a valid recovery session. */
    function CurrentView(): (v: View)
      reads this
      ensures v == ResetFormShown <==> !checkingToken && validToken
      ensures v == Verifying <==> checkingToken
    {
      if checkingToken then Verifying
      else if validToken then ResetFormShown
      else InvalidLinkShown
    }

    /** The "Back to Login" link under the form. */
    function ShowsBackLink(): (b: bool)
      reads this
      ensures b ==> validToken
    {
      validToken && !success
    }

    /**
     * `checkSession`, run once on mount: `hasSession` is whether
     * `getSession` found the recovery session the e-mail link sets up.
     */
    method CheckSession(hasSession: bool)
      modifies this
      ensures validToken == hasSession && !checkingToken
      ensures !hasSession ==> error == InvalidLink && CurrentView() == InvalidLinkShown
      ensures hasSession ==> error == old(error) && CurrentView() == ResetFormShown
      ensures password == old(password) && confirmPassword == old(confirmPassword)
      ensures loading == old(loading) && success == old(success)
    {
      validToken := hasSession;
      checkingToken := false;
      if !hasSession {
        error := InvalidLink;
      }
    }

    /** The two password fields' `onChange`: stored as typed. */
    method SetPasswords(typedPassword: string, typedConfirmation: string)
      modifies this
      ensures password == typedPassword && confirmPassword == typedConfirmation
      ensures loading == old(loading) && error == old(error) && success == old(success)
      ensures validToken == old(validToken) && checkingToken == old(checkingToken)
    {
      password, confirmPassword := typedPassword, typedConfirmation;
    }

    /**
     * `handleResetPassword`: the passwords must match, then be strong
     * enough; only then is the new password sent (returned as `sent`), and
     * `updateError` is the service's answer (`None` for success).
     */
    method HandleResetPassword(updateError: Option<string>) returns (sent: Option<string>)
      modifies this
      ensures sent.Some? <==> password == confirmPassword && ValidatePassword(password).None?
      ensures sent.Some? ==> sent.value == password
      ensures password != confirmPassword ==> error == Signup.Mismatch && success == old(success)
      ensures password == confirmPassword && ValidatePassword(password).Some? ==>
        error == ValidatePassword(password).value && success == old(success)
      ensures sent.Some? && updateError.Some? ==> error == FailureMessage(updateError.value) && success == old(success)
      ensures sent.Some? && updateError.None? ==> error == "" && success
      ensures !loading
      ensures password == old(password) && confirmPassword == old(confirmPassword)
      ensures validToken == old(validToken) && checkingToken == old(checkingToken)
    {
      loading := true;
      error := "";
      sent := None;

      if password != confirmPassword {
        error := Signup.Mismatch;
        loading := false;
        return;
      }

      var passwordError := ValidatePassword(password);
      if passwordError.Some? {
        error := passwordError.value;
        loading := false;
        return;
      }

      sent := Some(password);
      if updateError.Some? {
        error := FailureMessage(updateError.value);
      } else {
        success := true;
      }
      loading := false;
    }
  }

  /** Opening the page without a recovery session never shows the form. */
  method OpenWithoutSession() returns (page: Page)
    ensures page.CurrentView() == InvalidLinkShown
    ensures !page.validToken && page.error == InvalidLink
  {
    page := new Page();
    page.CheckSession(false);
  }
}
