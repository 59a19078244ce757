/** The registration form (client/src/pages/Register.jsx). */
module RegisterPage {
  import opened Wrappers
  import opened Text
  import opened Validators
  import opened FormRules

  const NameMsg: string := "Name is required"
  const PasswordMsg: string := "Password must be at least 6 characters"
  const PhoneMsg: string := "Enter a valid phone number"
  const RegisterFailedMsg: string := "Failed to register"

  /** What is sent to the identity provider and the profile document: the trimmed email,
      the password, and the name and phone exactly as typed. */
  datatype Registration = Registration(email: string, password: string, name: string, phone: string)

  /** The five inputs of the form, as typed. */
  datatype Entries = Entries(name: string, phone: string, email: string, password: string, confirm: string)

  /** Every field check of the form passes. */
  predicate RegistrationValid(f: Entries)
  {
    && Trim(f.name) != ""
    && IsValidEmail(f.email)
    && Utf16Length(f.password) >= MinPasswordLength
    && f.confirm == f.password
    && (Trim(f.phone) == "" || IsPhone(Trim(f.phone)))
  }

  /** The field errors `onSubmit` records, one key per failed check with its own
      message; none exactly when the form is valid. */
  function RegistrationErrors(f: Entries): (e: Errors)
    ensures e.Keys <= {NameKey, EmailKey, PasswordKey, ConfirmKey, PhoneKey}
    ensures NameKey in e <==> Trim(f.name) == ""
    ensures EmailKey in e <==> !IsValidEmail(f.email)
    ensures PasswordKey in e <==> Utf16Length(f.password) < MinPasswordLength
    ensures ConfirmKey in e <==> f.confirm != f.password
    ensures PhoneKey in e <==> Trim(f.phone) != "" && !IsPhone(Trim(f.phone))
    ensures NameKey in e ==> e[NameKey] == NameMsg
    ensures EmailKey in e ==> e[EmailKey] == EmailMsg
    ensures PasswordKey in e ==> e[PasswordKey] == PasswordMsg
    ensures ConfirmKey in e ==> e[ConfirmKey] == MismatchMsg
    ensures PhoneKey in e ==> e[PhoneKey] == PhoneMsg
    ensures e == map[] <==> RegistrationValid(f)
  {
    var e1 := IdentityErrors(f.name, f.email);
    var e2 := PasswordErrors(f.password, f.confirm, e1);
    var trimmedPhone := Trim(f.phone);
    if trimmedPhone != "" && !IsPhone(trimmedPhone) then
      var e3 := e2[PhoneKey := PhoneMsg];
      assert PhoneKey in e3;
      e3
    else e2
  }

  /** The name and email checks. */
  function IdentityErrors(name: string, email: string): (e: Errors)
    ensures e.Keys <= {NameKey, EmailKey}
    ensures NameKey in e <==> Trim(name) == ""
    ensures EmailKey in e <==> !IsValidEmail(email)
    ensures NameKey in e ==> e[NameKey] == NameMsg
    ensures EmailKey in e ==> e[EmailKey] == EmailMsg
  {
    var e1: Errors := if Trim(name) == "" then map[NameKey := NameMsg] else map[];
    if !IsValidEmail(email) then e1[EmailKey := EmailMsg] else e1
  }

  /** The password and confirmation checks, added to the errors so far. */
  function PasswordErrors(password: string, confirm: string, e0: Errors): (e: Errors)
    requires e0.Keys <= {NameKey, EmailKey}
    ensures e.Keys == e0.Keys
      + (if Utf16Length(password) < MinPasswordLength then {PasswordKey} else {})
      + (if confirm != password then {ConfirmKey} else {})
    ensures NameKey in e0 ==> e[NameKey] == e0[NameKey]
    ensures EmailKey in e0 ==> e[EmailKey] == e0[EmailKey]
    ensures PasswordKey in e ==> e[PasswordKey] == PasswordMsg
    ensures ConfirmKey in e ==> e[ConfirmKey] == MismatchMsg
  {
    var e1 := if Utf16Length(password) < MinPasswordLength then e0[PasswordKey := PasswordMsg] else e0;
    if confirm != password then e1[ConfirmKey := MismatchMsg] else e1
  }

  class RegisterForm {
    var name: string
    var phone: string
    var email: string
    var password: string
    var confirm: string
    var error: string
    var fieldErrors: Errors

    /** The inputs: name, phone, email, password and confirmation. */
    function Inputs(): Entries
      reads this`name, this`phone, this`email, this`password, this`confirm
    {
      Entries(name, phone, email, password, confirm)
    }

    constructor ()
      ensures name == "" && phone == "" && email == "" && password == "" && confirm == ""
      ensures error == "" && fieldErrors == map[]
    {
      name, phone, email, password, confirm := "", "", "", "", "";
      error := "";
      fieldErrors := map[];
    }

    /** `onSubmit`: one check per field, each recording its own message; the account is
        created only when none failed. `create` is the outcome of the creation chain. */
    method OnSubmit(create: AuthResult) returns (request: Option<Registration>)
      modifies this`error, this`fieldErrors
      ensures fieldErrors == RegistrationErrors(Inputs())
      ensures request.Some? <==> RegistrationValid(Inputs())
      ensures request.Some? ==> request.value == Registration(Trim(email), password, name, phone)
      ensures error == (if request.Some? && create.Rejected? then OrDefault(create.message, RegisterFailedMsg) else "")
    {
      error := "";
      var next := RegistrationErrors(Inputs());
      fieldErrors := next;
      if next != map[] {
        return None;
      }
      request := Some(Registration(Trim(email), password, name, phone));
      if create.Rejected? {
        error := OrDefault(create.message, RegisterFailedMsg);
      }
    }
  }

  /** Surrounding whitespace never decides a registration: padding the phone number with
      spaces accepts and rejects the same forms. */
  lemma PhonePaddingIrrelevant(f: Entries)
    ensures RegistrationValid(f.(phone := " " + f.phone + " ")) <==> RegistrationValid(f)
  {
    TrimPadded(f.phone);
  }
}
