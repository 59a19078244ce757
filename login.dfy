/** The sign-in page (client/src/pages/Login.jsx): a form whose state hooks are the
    fields of `LoginForm`. Each handler is a method, and the outcome of every network
    or identity-provider call it makes is a parameter. */
module LoginPage {
  import opened Wrappers
  import opened Text
  import opened Validators
  import opened FormRules
  import ResetService

  /** `'login' | 'change' | 'forgot'` */
  datatype Mode = Login | Change | Forgot

  /** The parsed reply of `/api/verify-token/<token>`; absent fields are empty. */
  datatype TokenReply = TokenReply(success: bool, email: string, tempPassword: string)

  /** The reply of `/api/forgot-password`: an HTTP response with its parsed body, or a
      request that failed outright. */
  datatype ForgotReply = Reply(ok: bool, error: string) | RequestFailed(message: string)

  /** The body verify-token answers with: `{ success: true, email, tempPassword }` for a
      live token, and an error body without those fields otherwise. */
  function VerifyReply(answer: ResetService.Redemption): (reply: TokenReply)
    ensures reply.success <==> answer.Redeemed?
    ensures answer.Redeemed? ==> reply.email == answer.email && reply.tempPassword == answer.tempPassword
  {
    match answer
    case Redeemed(email, tempPassword) => TokenReply(true, email, tempPassword)
    case _ => TokenReply(false, "", "")
  }

  /** `data.success && data.email && data.tempPassword` */
  predicate AutofillApplies(reply: TokenReply)
  {
    reply.success && reply.email != "" && reply.tempPassword != ""
  }

  /** A link followed while its record is live fills the form with the stored email and
      temporary password; a link to an unknown or expired token fills nothing. */
  lemma AutofillFromLink(m: ResetService.Store, token: string, now: nat)
    ensures var answer := ResetService.Redeem(m, token, now);
      && (AutofillApplies(VerifyReply(answer)) <==>
            token in m && !ResetService.Expired(m[token], now) && m[token].email != "" && m[token].tempPassword != "")
      && (AutofillApplies(VerifyReply(answer)) ==>
            VerifyReply(answer).email == m[token].email && VerifyReply(answer).tempPassword == m[token].tempPassword)
  {
  }

  /** The address the form sends to forgot-password always gets past the server's
      missing-email check. */
  lemma ValidEmailPassesServerCheck(email: string)
    requires IsValidEmail(email)
    ensures !ResetService.MissingEmail(Some(Trim(email)))
  {
    ValidEmailShape(email);
  }

  /** The email check every handler starts with: the error object holding only the email
      message, or nothing when the trimmed email matches. */
  function EmailErrors(email: string): (e: Errors)
    ensures e.Keys <= {EmailKey}
    ensures EmailKey in e <==> !IsValidEmail(email)
    ensures EmailKey in e ==> e[EmailKey] == EmailMsg
  {
    if IsValidEmail(email) then map[] else map[EmailKey := EmailMsg]
  }

  const PasswordMsg: string := "Password must be at least 6 characters"
  const LoginFailedMsg: string := "Failed to login"
  const ChangeFailedMsg: string := "Failed to change password"
  const ResetFailedMsg: string := "Failed to send reset email"
  const AutofillMsg: string := "Your email and temporary password have been auto-filled. Please enter your new password."
  const ChangedMsg: string := "Password has been changed successfully. A confirmation email has been sent to your inbox."
  const ResetSentMsg: string := "A temporary password has been sent to your email. Please check your inbox and use it to log in."

  class LoginForm {
    var mode: Mode
    var email: string
    var password: string
    var prevPassword: string
    var newPassword: string
    var confirmPassword: string
    var error: string
    var success: string
    var fieldErrors: Errors
    var confirmOpen: bool

    /** The five input fields, in the order the form shows them. */
    function Inputs(): (string, string, string, string, string)
      reads this`email, this`password, this`prevPassword, this`newPassword, this`confirmPassword
    {
      (email, password, prevPassword, newPassword, confirmPassword)
    }

    /** The initial state of every hook. */
    constructor ()
      ensures mode == Login && Inputs() == ("", "", "", "", "")
      ensures error == "" && success == "" && fieldErrors == map[] && !confirmOpen
    {
      mode := Login;
      email, password, prevPassword, newPassword, confirmPassword := "", "", "", "", "";
      error, success := "", "";
      fieldErrors := map[];
      confirmOpen := false;
    }

    /** Sign in: the address sent is the trimmed email, and the call is made only when
        the email is valid and the password's `.length` is at least six. */
    method OnSubmit(signIn: AuthResult) returns (signInEmail: Option<string>)
      modifies this
      ensures signInEmail.Some? <==> IsValidEmail(email) && Utf16Length(password) >= MinPasswordLength
      ensures signInEmail.Some? ==> signInEmail.value == Trim(email)
      ensures fieldErrors.Keys <= {EmailKey, PasswordKey}
      ensures EmailKey in fieldErrors <==> !IsValidEmail(email)
      ensures EmailKey in fieldErrors ==> fieldErrors[EmailKey] == EmailMsg
      ensures PasswordKey in fieldErrors <==> Utf16Length(password) < MinPasswordLength
      ensures PasswordKey in fieldErrors ==> fieldErrors[PasswordKey] == PasswordMsg
      ensures error == (if signInEmail.Some? && signIn.Rejected? then OrDefault(signIn.message, LoginFailedMsg) else "")
      ensures success == ""
      ensures Inputs() == old(Inputs()) && mode == old(mode) && confirmOpen == old(confirmOpen)
    {
      error := "";
      success := "";
      var next: Errors := map[];
      if !IsValidEmail(email) {
        next := next[EmailKey := EmailMsg];
      }
      if Utf16Length(password) < MinPasswordLength {
        next := next[PasswordKey := PasswordMsg];
      }
      fieldErrors := next;
      if |next| > 0 {
        return None;
      }
      signInEmail := Some(Trim(email));
      if signIn.Rejected? {
        error := OrDefault(signIn.message, LoginFailedMsg);
      }
    }

    /** `validateChange`: the email check followed by the password-change rules; the
        change may go ahead exactly when no field error was recorded. */
    method ValidateChange() returns (ok: bool)
      modifies this`fieldErrors
      ensures ok <==> IsValidEmail(email) && ChangeAllowed(prevPassword, newPassword, confirmPassword)
      ensures ok <==> fieldErrors == map[]
      ensures fieldErrors == ChangeErrors(prevPassword, newPassword, confirmPassword, EmailErrors(email))
    {
      var next: Errors := map[];
      if !IsValidEmail(email) {
        next := next[EmailKey := EmailMsg];
      }
      assert next == EmailErrors(email);
      next := AddPasswordErrors(prevPassword, newPassword, confirmPassword, next);
      fieldErrors := next;
      ok := |next| == 0;
    }

    /** The first step of a change: validate, and ask for confirmation only when valid. */
    method OnOpenConfirm()
      modifies this`error, this`success, this`fieldErrors, this`confirmOpen
      ensures error == "" && success == ""
      ensures confirmOpen <==> old(confirmOpen) || (IsValidEmail(email) && ChangeAllowed(prevPassword, newPassword, confirmPassword))
      ensures fieldErrors == ChangeErrors(prevPassword, newPassword, confirmPassword, EmailErrors(email))
    {
      error := "";
      success := "";
      var ok := ValidateChange();
      if ok {
        confirmOpen := true;
      }
    }

    /** The confirmed change: sign in with the trimmed email and the previous password,
        then set the new password (`updatedTo`, absent when the update is never called).
        The notification that follows is awaited but its failure is ignored, so it does
        not appear here. On success the four fields clear and the page returns to sign-in. */
    method OnConfirmChange(signIn: AuthResult, update: AuthResult) returns (signInCall: Credentials, updatedTo: Option<string>)
      modifies this`confirmOpen, this`error, this`success, this`mode
      modifies this`email, this`prevPassword, this`newPassword, this`confirmPassword
      ensures signInCall == Credentials(Trim(old(email)), old(prevPassword))
      ensures updatedTo.Some? <==> signIn.Accepted?
      ensures updatedTo.Some? ==> updatedTo.value == old(newPassword)
      ensures !confirmOpen
      ensures signIn.Accepted? && update.Accepted? ==>
        && error == "" && success == ChangedMsg && mode == Login
        && Inputs() == ("", old(password), "", "", "")
      ensures signIn.Rejected? ==> error == OrDefault(signIn.message, ChangeFailedMsg)
      ensures signIn.Accepted? && update.Rejected? ==> error == OrDefault(update.message, ChangeFailedMsg)
      ensures signIn.Rejected? || update.Rejected? ==> success == "" && Inputs() == old(Inputs()) && mode == old(mode)
      ensures fieldErrors == old(fieldErrors)
    {
      signInCall := Credentials(Trim(email), prevPassword);
      updatedTo := None;
      confirmOpen := false;
      error := "";
      success := "";
      if signIn.Rejected? {
        error := OrDefault(signIn.message, ChangeFailedMsg);
        return;
      }
      updatedTo := Some(newPassword);
      if update.Rejected? {
        error := OrDefault(update.message, ChangeFailedMsg);
        return;
      }
      ClearAfterChange();
    }

    /** After a completed change: the success message, the email and the three password
        fields cleared, and the sign-in view. */
    method ClearAfterChange()
      modifies this`success, this`mode, this`email, this`prevPassword, this`newPassword, this`confirmPassword
      ensures success == ChangedMsg && mode == Login
      ensures email == "" && prevPassword == "" && newPassword == "" && confirmPassword == ""
    {
      success := ChangedMsg;
      prevPassword := "";
      newPassword := "";
      confirmPassword := "";
      email := "";
      mode := Login;
    }

    /** "No" in the confirmation dialog. */
    method OnCancelChange()
      modifies this`confirmOpen
      ensures !confirmOpen
    {
      confirmOpen := false;
    }

    /** The reset request: sent (with the trimmed email) only for a valid email. A
        non-ok reply becomes an error carrying the server's message, or the default. */
    method OnForgotPassword(reply: ForgotReply) returns (requestEmail: Option<string>)
      modifies this
      ensures requestEmail.Some? <==> IsValidEmail(email)
      ensures requestEmail.Some? ==> requestEmail.value == Trim(email)
      ensures fieldErrors == EmailErrors(email)
      ensures requestEmail.None? ==> error == "" && success == ""
      ensures requestEmail.Some? && reply.Reply? && reply.ok ==> error == "" && success == ResetSentMsg
      ensures requestEmail.Some? && reply.Reply? && !reply.ok ==> error == OrDefault(reply.error, ResetFailedMsg) && success == ""
      ensures requestEmail.Some? && reply.RequestFailed? ==> error == OrDefault(reply.message, ResetFailedMsg) && success == ""
      ensures Inputs() == old(Inputs()) && mode == old(mode) && confirmOpen == old(confirmOpen)
    {
      error := "";
      success := "";
      var next: Errors := map[];
      if !IsValidEmail(email) {
        next := next[EmailKey := EmailMsg];
      }
      fieldErrors := next;
      if |next| > 0 {
        return None;
      }
      requestEmail := Some(Trim(email));
      match reply {
        case Reply(ok, message) =>
          if ok {
            success := ResetSentMsg;
          } else {
            error := OrDefault(message, ResetFailedMsg);
          }
        case RequestFailed(message) =>
          error := OrDefault(message, ResetFailedMsg);
      }
    }

    /** The auto-fill on arrival from a reset link: `token` is the `token` query
        parameter, and `reply` the verify-token reply (`None` when the request failed).
        The form switches to the change mode only when the reply says success and
        carries both an email and a temporary password. */
    method ApplyTokenAutofill(token: string, reply: Option<TokenReply>) returns (fetched: bool)
      modifies this
      ensures fetched <==> token != ""
      ensures var applies := fetched && reply.Some? && AutofillApplies(reply.value);
        && (applies ==>
              && mode == Change && email == reply.value.email && prevPassword == reply.value.tempPassword
              && success == AutofillMsg)
        && (!applies ==> mode == old(mode) && email == old(email) && prevPassword == old(prevPassword) && success == old(success))
      ensures password == old(password) && newPassword == old(newPassword) && confirmPassword == old(confirmPassword)
      ensures error == old(error) && fieldErrors == old(fieldErrors) && confirmOpen == old(confirmOpen)
    {
      fetched := token != "";
      if !fetched {
        return;
      }
      if reply.Some? && AutofillApplies(reply.value) {
        mode := Change;
        email := reply.value.email;
        prevPassword := reply.value.tempPassword;
        success := AutofillMsg;
      }
    }

    /** "Forgot password?" from the sign-in view. */
    method ShowForgot()
      modifies this
      ensures mode == Forgot && error == "" && success == "" && fieldErrors == map[]
      ensures Inputs() == old(Inputs()) && confirmOpen == old(confirmOpen)
    {
      error := "";
      success := "";
      fieldErrors := map[];
      mode := Forgot;
    }

    /** "Back to sign in": every field, message and field error cleared. */
    method BackToSignIn()
      modifies this
      ensures mode == Login && Inputs() == ("", "", "", "", "")
      ensures error == "" && success == "" && fieldErrors == map[]
      ensures confirmOpen == old(confirmOpen)
    {
      error := "";
      success := "";
      fieldErrors := map[];
      email, password, prevPassword, newPassword, confirmPassword := "", "", "", "", "";
      mode := Login;
    }
  }
}
