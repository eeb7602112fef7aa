/**
 * The login form: its schema, the fixed demo credentials and the role each
 * grants, and the error and loading flags around a submission.
 */
module LoginPage {
  import opened Wrappers

  /** The form gate: a username of two characters or more and a password of six or more. */
  predicate SchemaValid(username: string, password: string)
  {
    |username| >= 2 && |password| >= 6
  }

  const UsernameRequired := "Username is required"
  const PasswordTooShort := "Password must be at least 6 characters"

  /** The messages the schema attaches to the two inputs; none exactly when the values pass. */
  function SchemaMessages(username: string, password: string): (msgs: set<string>)
    ensures UsernameRequired in msgs <==> |username| < 2
    ensures PasswordTooShort in msgs <==> |password| < 6
    ensures msgs <= {UsernameRequired, PasswordTooShort}
    ensures msgs == {} <==> SchemaValid(username, password)
  {
    (if |username| < 2 then {UsernameRequired} else {}) + (if |password| < 6 then {PasswordTooShort} else {})
  }

  /** The role a credential pair logs in as, if any. */
  function RoleFor(username: string, password: string): (role: Option<string>)
    ensures role.Some? <==>
      (username, password) in {("admin", "admin123"), ("tech", "tech123"), ("backoffice", "office123")}
    ensures role == Some("Administrator") <==> username == "admin" && password == "admin123"
    ensures role == Some("Technician") <==> username == "tech" && password == "tech123"
    ensures role == Some("BackOffice") <==> username == "backoffice" && password == "office123"
  {
    if username == "admin" && password == "admin123" then Some("Administrator")
    else if username == "tech" && password == "tech123" then Some("Technician")
    else if username == "backoffice" && password == "office123" then Some("BackOffice")
    else None
  }

  /** Every demo pair gets past the schema, so each of the three roles can be reached. */
  lemma DemoPairsPassSchema(username: string, password: string)
    requires RoleFor(username, password).Some?
    ensures SchemaValid(username, password)
  {
  }

  /** A call of the `onLogin` callback. */
  datatype LoginCall = LoginCall(username: string, role: string)

  const InvalidCredentials := "Invalid username or password"
  const LoginFailed := "An error occurred during login. Please try again."

  class LoginPage {
    var error: Option<string>
    var isLoading: bool

    constructor ()
      ensures error == None && !isLoading
    {
      error := None;
      isLoading := false;
    }

    /**
     * The submit handler, reached with values that passed the schema. It calls
     * `onLogin` at most once, with the role the pair grants; an unknown pair
     * sets the invalid-credentials error. `callbackFails` says that `onLogin`
     * or the navigation after it throws, which sets the generic error. The
     * loading flag is raised first and lowered whatever the outcome.
     */
    method HandleSubmit(username: string, password: string, callbackFails: bool) returns (call: Option<LoginCall>)
      modifies this`error, this`isLoading
      ensures call.Some? <==> RoleFor(username, password).Some?
      ensures call.Some? ==> call.value == LoginCall(username, RoleFor(username, password).value)
      ensures error == (if RoleFor(username, password).None? then Some(InvalidCredentials)
                        else if callbackFails then Some(LoginFailed) else None)
      ensures !isLoading
    {
      isLoading := true;
      error := None;
      var role := RoleFor(username, password);
      if role.Some? {
        call := Some(LoginCall(username, role.value));
        if callbackFails {
          error := Some(LoginFailed);
        }
      } else {
        call := None;
        error := Some(InvalidCredentials);
      }
      isLoading := false;
    }

    /** Submitting the form: values failing the schema never reach the handler, and nothing changes. */
    method Submit(username: string, password: string, callbackFails: bool) returns (call: Option<LoginCall>)
      modifies this`error, this`isLoading
      ensures !SchemaValid(username, password) ==> call == None && error == old(error) && isLoading == old(isLoading)
      ensures SchemaValid(username, password) ==>
        && !isLoading
        && error == (if RoleFor(username, password).None? then Some(InvalidCredentials)
                     else if callbackFails then Some(LoginFailed) else None)
      ensures call.Some? <==> RoleFor(username, password).Some?
      ensures call.Some? ==> call.value == LoginCall(username, RoleFor(username, password).value)
    {
      if !SchemaValid(username, password) {
        return None;
      }
      call := HandleSubmit(username, password, callbackFails);
    }
  }

  /** The administrator pair logs in as Administrator and leaves no error. */
  method AdminLogsIn() returns (call: Option<LoginCall>, error: Option<string>)
    ensures call == Some(LoginCall("admin", "Administrator")) && error == None
  {
    var page := new LoginPage();
    call := page.Submit("admin", "admin123", false);
    error := page.error;
  }

  /** A wrong password is reported and logs nobody in. */
  method WrongPasswordRejected() returns (call: Option<LoginCall>, error: Option<string>)
    ensures call == None && error == Some(InvalidCredentials)
  {
    var page := new LoginPage();
    call := page.Submit("admin", "admin1234", false);
    error := page.error;
  }
}
