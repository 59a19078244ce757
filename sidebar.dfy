/** The change-password panel of the sidebar (client/src/components/Sidebar.jsx). The
    signed-in user's email comes from the auth listener; the outcome of each call is a
    parameter. */
module SidebarPanel {
  import opened Wrappers
  import opened FormRules

  const ChangeFailedMsg: string := "Failed to change password"
  const ChangedMsg: string := "Password changed successfully! A confirmation email has been sent."

  class ChangePasswordPanel {
    var showChangePassword: bool
    var userEmail: string
    var prevPassword: string
    var newPassword: string
    var confirmPassword: string
    var error: string
    var success: string
    var fieldErrors: Errors

    /** The three password fields. */
    function Passwords(): (string, string, string)
      reads this`prevPassword, this`newPassword, this`confirmPassword
    {
      (prevPassword, newPassword, confirmPassword)
    }

    constructor (userEmail: string)
      ensures !showChangePassword && this.userEmail == userEmail && Passwords() == ("", "", "")
      ensures error == "" && success == "" && fieldErrors == map[]
    {
      showChangePassword := false;
      this.userEmail := userEmail;
      prevPassword, newPassword, confirmPassword := "", "", "";
      error, success := "", "";
      fieldErrors := map[];
    }

    /** `handleChangePassword`: the password-change rules, then sign-in (`signInCall`,
        with the signed-in email and the previous password) and the update to the new
        password (`updatedTo`) only when no rule failed. The notification's failure is
        swallowed, so a completed update always reports success and clears the three
        fields. */
    method HandleChangePassword(signIn: AuthResult, update: AuthResult)
      returns (signInCall: Option<Credentials>, updatedTo: Option<string>)
      modifies this`error, this`success, this`fieldErrors, this`prevPassword, this`newPassword, this`confirmPassword
      ensures fieldErrors == ChangeErrors(old(prevPassword), old(newPassword), old(confirmPassword), map[])
      ensures signInCall.Some? <==> ChangeAllowed(old(prevPassword), old(newPassword), old(confirmPassword))
      ensures signInCall.Some? ==> signInCall.value == Credentials(userEmail, old(prevPassword))
      ensures updatedTo.Some? <==> signInCall.Some? && signIn.Accepted?
      ensures updatedTo.Some? ==> updatedTo.value == old(newPassword)
      ensures updatedTo.Some? && update.Accepted? ==> error == "" && success == ChangedMsg && Passwords() == ("", "", "")
      ensures !(updatedTo.Some? && update.Accepted?) ==> success == "" && Passwords() == old(Passwords())
      ensures error == (if signInCall.None? then ""
                        else if signIn.Rejected? then OrDefault(signIn.message, ChangeFailedMsg)
                        else if update.Rejected? then OrDefault(update.message, ChangeFailedMsg)
                        else "")
      ensures showChangePassword == old(showChangePassword) && userEmail == old(userEmail)
    {
      error := "";
      success := "";
      var next := AddPasswordErrors(prevPassword, newPassword, confirmPassword, map[]);
      fieldErrors := next;
      signInCall, updatedTo := None, None;
      if |next| > 0 {
        return;
      }
      signInCall := Some(Credentials(userEmail, prevPassword));
      if signIn.Rejected? {
        error := OrDefault(signIn.message, ChangeFailedMsg);
        return;
      }
      updatedTo := Some(newPassword);
      if update.Rejected? {
        error := OrDefault(update.message, ChangeFailedMsg);
        return;
      }
      ClearAfterChange();
    }

    /** After a completed change: the success message and the three fields cleared. */
    method ClearAfterChange()
      modifies this`success, this`prevPassword, this`newPassword, this`confirmPassword
      ensures success == ChangedMsg && Passwords() == ("", "", "")
    {
      success := ChangedMsg;
      prevPassword := "";
      newPassword := "";
      confirmPassword := "";
    }

    /** The timer set after a success fires two seconds later: the panel closes and the
        success message clears. */
    method CloseAfterSuccess()
      modifies this
      ensures !showChangePassword && success == ""
      ensures Passwords() == old(Passwords()) && error == old(error) && fieldErrors == old(fieldErrors)
      ensures userEmail == old(userEmail)
    {
      showChangePassword := false;
      success := "";
    }

    /** Cancel: the panel closes with every field, message and field error cleared. */
    method Cancel()
      modifies this
      ensures !showChangePassword && Passwords() == ("", "", "")
      ensures error == "" && success == "" && fieldErrors == map[]
      ensures userEmail == old(userEmail)
    {
      showChangePassword := false;
      prevPassword := "";
      newPassword := "";
      confirmPassword := "";
      error := "";
      success := "";
      fieldErrors := map[];
    }
  }
}
