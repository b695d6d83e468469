/** The login page (src/pages/Login.jsx): the input checks that come
    before any request, the choice between signing in and signing up, the
    messages shown for the service's error codes, the loading flag and the
    mode toggles. A submit is split in two steps: `HandleSubmit` runs up to
    the awaited request and returns it; `Settle` runs the `catch` and
    `finally` blocks once the service has answered. */
module Login {
  import opened JsValues
  import opened Session

  const FillAllFields: string := "Please fill all fields"
  const PasswordTooShort: string := "Password must be at least 6 characters"
  const InvalidCredentials: string := "Invalid email or password."
  const EmailInUse: string := "Email already registered"
  const AuthFailed: string := "Authentication failed"

  const MinPasswordLength: nat := 6

  /** The error codes that all mean wrong credentials. */
  const CredentialCodes: set<string> :=
    {"auth/user-not-found", "auth/wrong-password", "auth/invalid-credential"}

  /** An error thrown by the service: its `code` and its `message`; a
      missing message is the empty string. */
  datatype AuthError = AuthError(code: string, message: string)

  /** The message the `catch` block shows for an error. */
  function ErrorMessage(err: AuthError): (m: string)
    ensures err.code in CredentialCodes ==> m == InvalidCredentials
    ensures err.code == "auth/email-already-in-use" ==> m == EmailInUse
    ensures err.code !in CredentialCodes && err.code != "auth/email-already-in-use" ==>
              m == if err.message != "" then err.message else AuthFailed
    ensures m != ""
  {
    if err.code == "auth/user-not-found" || err.code == "auth/wrong-password"
       || err.code == "auth/invalid-credential" then InvalidCredentials
    else if err.code == "auth/email-already-in-use" then EmailInUse
    else if err.message != "" then err.message
    else AuthFailed
  }

  /** The checks before a request: the message they set, or none. */
  function CheckInput(email: string, password: string): (r: Option<string>)
    ensures r == Some(FillAllFields) <==> email == "" || password == ""
    ensures r == Some(PasswordTooShort) <==>
              email != "" && password != "" && |password| < MinPasswordLength
    ensures r == None <==> email != "" && |password| >= MinPasswordLength
  {
    if email == "" || password == "" then Some(FillAllFields)
    else if |password| < MinPasswordLength then Some(PasswordTooShort)
    else None
  }

  class LoginForm {
    var email: string
    var password: string
    var error: string
    var isRegister: bool
    var isLoading: bool

    constructor ()
      ensures email == "" && password == "" && error == ""
      ensures !isRegister && !isLoading
    {
      email := "";
      password := "";
      error := "";
      isRegister := false;
      isLoading := false;
    }

    method SetEmail(value: string)
      modifies this`email
      ensures email == value
    {
      email := value;
    }

    method SetPassword(value: string)
      modifies this`password
      ensures password == value
    {
      password := value;
    }

    /** The Login tab: sign-in mode, and the error is cleared. */
    method ShowLogin()
      modifies this`isRegister, this`error
      ensures !isRegister && error == ""
    {
      isRegister := false;
      error := "";
    }

    /** The Register tab: sign-up mode, and the error is cleared. */
    method ShowRegister()
      modifies this`isRegister, this`error
      ensures isRegister && error == ""
    {
      isRegister := true;
      error := "";
    }

    /** `handleSubmit` up to the awaited request. Input that fails a check
        sets its message and sends nothing; valid input clears the error,
        sets loading and sends exactly one request, chosen by the mode. */
    method HandleSubmit() returns (call: Option<AuthCall>)
      modifies this`error, this`isLoading
      ensures CheckInput(email, password).Some? ==>
                call == None && error == CheckInput(email, password).value &&
                isLoading == old(isLoading)
      ensures CheckInput(email, password).None? ==>
                error == "" && isLoading &&
                call == Some(if isRegister then SignUp(email, password) else SignIn(email, password))
    {
      if email == "" || password == "" {
        error := FillAllFields;
        return None;
      }
      if |password| < MinPasswordLength {
        error := PasswordTooShort;
        return None;
      }
      error := "";
      isLoading := true;
      if isRegister {
        call := Some(SignUp(email, password));
      } else {
        call := Some(SignIn(email, password));
      }
    }

    /** The rest of `handleSubmit` once the request has settled: a failure
        shows its message, a success leaves the error as it was; loading
        ends either way. */
    method Settle(failure: Option<AuthError>)
      modifies this`error, this`isLoading
      ensures error == if failure.Some? then ErrorMessage(failure.value) else old(error)
      ensures !isLoading
    {
      if failure.Some? {
        error := ErrorMessage(failure.value);
      }
      isLoading := false;
    }
  }
}
