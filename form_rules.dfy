/** What the account forms share: the field-error object they fill one check at a
    time, the outcome of a call to the identity provider, and the password-change rules
    used by both the sign-in page and the sidebar panel. */
module FormRules {
  import opened Text

  /** The keys the forms' error objects use: `name`, `email`, `password`,
      `prevPassword`, `newPassword`, `confirmPassword`, `confirm`, `phone`, `hex` and
      `text`. */
  datatype Field =
    | NameKey | EmailKey | PasswordKey | PrevPasswordKey | NewPasswordKey
    | ConfirmPasswordKey | ConfirmKey | PhoneKey | HexKey | TextKey

  /** A form's `next` / `fieldErrors` object: field to message. Its size is
      `Object.keys(next).length`. */
  type Errors = map<Field, string>

  /** The outcome of a sign-in, account creation or password update. */
  datatype AuthResult = Accepted | Rejected(message: string)

  /** The arguments of `signInWithEmailAndPassword`. */
  datatype Credentials = Credentials(email: string, password: string)

  /** `err.message || fallback` */
  function OrDefault(message: string, fallback: string): (r: string)
    ensures r != "" <==> message != "" || fallback != ""
    ensures message != "" ==> r == message
  {
    if message == "" then fallback else message
  }

  const MinPasswordLength: nat := 6

  const EmailMsg: string := "Enter a valid email address"
  const PrevPasswordMsg: string := "Previous password is required (min 6)"
  const NewPasswordLengthMsg: string := "New password must be at least 6 characters"
  const NewPasswordSameMsg: string := "New password must be different"
  const MismatchMsg: string := "Passwords do not match"

  /** The password-change rule: both passwords at least six UTF-16 units long
      (`.length`), the new one different from the previous one, and confirmed exactly. */
  predicate ChangeAllowed(prev: string, newPassword: string, confirm: string)
  {
    Utf16Length(prev) >= MinPasswordLength && Utf16Length(newPassword) >= MinPasswordLength
    && newPassword != prev && confirm == newPassword
  }

  /** The error object after the four password checks, run in order on the object built
      so far (empty, or holding only the email error). The "must be different" check
      runs after the length check and overwrites its message. */
  function ChangeErrors(prev: string, newPassword: string, confirm: string, next0: Errors): (next: Errors)
    requires next0.Keys <= {EmailKey}
    ensures next.Keys <= {EmailKey, PrevPasswordKey, NewPasswordKey, ConfirmPasswordKey}
    ensures EmailKey in next <==> EmailKey in next0
    ensures EmailKey in next0 ==> next[EmailKey] == next0[EmailKey]
    ensures PrevPasswordKey in next <==> Utf16Length(prev) < MinPasswordLength
    ensures PrevPasswordKey in next ==> next[PrevPasswordKey] == PrevPasswordMsg
    ensures NewPasswordKey in next <==> Utf16Length(newPassword) < MinPasswordLength || (newPassword != "" && newPassword == prev)
    ensures NewPasswordKey in next ==>
      next[NewPasswordKey] == (if newPassword != "" && newPassword == prev then NewPasswordSameMsg else NewPasswordLengthMsg)
    ensures ConfirmPasswordKey in next <==> confirm != newPassword
    ensures ConfirmPasswordKey in next ==> next[ConfirmPasswordKey] == MismatchMsg
    ensures next == next0 <==> ChangeAllowed(prev, newPassword, confirm)
  {
    var e1 := if Utf16Length(prev) < MinPasswordLength then next0[PrevPasswordKey := PrevPasswordMsg] else next0;
    var e2 := if Utf16Length(newPassword) < MinPasswordLength then e1[NewPasswordKey := NewPasswordLengthMsg] else e1;
    var e3 := if newPassword != "" && prev != "" && newPassword == prev then e2[NewPasswordKey := NewPasswordSameMsg] else e2;
    var next := if confirm != newPassword then e3[ConfirmPasswordKey := MismatchMsg] else e3;
    assert next == next0 ==> ChangeAllowed(prev, newPassword, confirm) by {
      if next == next0 {
        assert PrevPasswordKey !in next && NewPasswordKey !in next && ConfirmPasswordKey !in next;
      }
    }
    next
  }

  /** The four password checks as the forms run them, one assignment at a time. */
  method AddPasswordErrors(prev: string, newPassword: string, confirm: string, next0: Errors) returns (next: Errors)
    requires next0.Keys <= {EmailKey}
    ensures next == ChangeErrors(prev, newPassword, confirm, next0)
  {
    next := next0;
    if Utf16Length(prev) < MinPasswordLength {
      next := next[PrevPasswordKey := PrevPasswordMsg];
    }
    if Utf16Length(newPassword) < MinPasswordLength {
      next := next[NewPasswordKey := NewPasswordLengthMsg];
    }
    if newPassword != "" && prev != "" && newPassword == prev {
      next := next[NewPasswordKey := NewPasswordSameMsg];
    }
    if confirm != newPassword {
      next := next[ConfirmPasswordKey := MismatchMsg];
    }
  }
}
