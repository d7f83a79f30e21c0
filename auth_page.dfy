/** frontend/src/pages/AuthPage.jsx: the login and sign-up form and the password-reset
    link. The auth service is reached through the calls the page records; its answer (an
    error message or none) is an input. */
module AuthPage {
  import opened Wrappers
  import opened Text

  const InvalidCredentials: string := "Invalid login credentials"
  const InvalidCredentialsShown: string := "Invalid email or password"
  const PasswordsMismatch: string := "Passwords do not match"
  const PasswordTooShort: string := "Password must be at least 6 characters"
  const LoginSucceeded: string := "Login successful! Redirecting..."
  const EmailMissing: string := "Please enter your email address to receive a reset link."
  const EmailInvalid: string := "Please enter a valid email address"
  const ResetSent: string := "Password reset email sent! Check your inbox."
  const MinPasswordLength := 6

  /** `message.type`: '', 'success' or 'error'. */
  datatype Kind = Plain | Succeeded | Failed

  datatype Message = Message(kind: Kind, text: string)

  const Cleared: Message := Message(Plain, "")

  /** A request the page sends to the auth service. */
  datatype AuthCall =
    | SignIn(email: string, password: string)
    | SignUp(email: string, password: string)
    | ResetFor(email: string)

  /** The text shown for a caught error: the service's wrong-credentials message is
      replaced by a friendlier one, any other message is shown as it is. */
  function ShownError(message: string): (r: string)
    ensures Contains(message, InvalidCredentials) ==> r == InvalidCredentialsShown
    ensures !Contains(message, InvalidCredentials) ==> r == message
  {
    if Contains(message, InvalidCredentials) then InvalidCredentialsShown else message
  }

  lemma MismatchShownAsIs()
    ensures ShownError(PasswordsMismatch) == PasswordsMismatch
  {
    assert 'I' !in PasswordsMismatch;
    ContainsNeedsHead(PasswordsMismatch, InvalidCredentials);
  }

  lemma TooShortShownAsIs()
    ensures ShownError(PasswordTooShort) == PasswordTooShort
  {
    assert 'I' !in PasswordTooShort;
    ContainsNeedsHead(PasswordTooShort, InvalidCredentials);
  }

  lemma FriendlyShownAsIs()
    ensures ShownError(InvalidCredentialsShown) == InvalidCredentialsShown
  {
    assert InvalidCredentialsShown[8] != InvalidCredentials[8];
    ContainsSameLength(InvalidCredentialsShown, InvalidCredentials);
  }

  /** Mapping an error text twice is mapping it once. */
  lemma ShownErrorIdempotent(message: string)
    ensures ShownError(ShownError(message)) == ShownError(message)
  {
    FriendlyShownAsIs();
  }

  /** The sign-up checks in their order: the confirmation first, then the length (in
      UTF-16 code units, as `password.length` counts). */
  function SignupCheck(password: string, confirmPassword: string): (r: Option<string>)
    ensures r.None? <==> password == confirmPassword && Utf16Length(password) >= MinPasswordLength
    ensures password != confirmPassword ==> r == Some(PasswordsMismatch)
    ensures password == confirmPassword && Utf16Length(password) < MinPasswordLength ==>
      r == Some(PasswordTooShort)
  {
    if password != confirmPassword then Some(PasswordsMismatch)
    else if Utf16Length(password) < MinPasswordLength then Some(PasswordTooShort)
    else None
  }

  /** A failed sign-up check is shown with its own text. */
  lemma SignupErrorShownAsIs(password: string, confirmPassword: string)
    requires SignupCheck(password, confirmPassword).Some?
    ensures ShownError(SignupCheck(password, confirmPassword).value) == SignupCheck(password, confirmPassword).value
  {
    MismatchShownAsIs();
    TooShortShownAsIs();
  }

  function SignupSucceeded(email: string): string {
    "Success! Please check " + email + " to confirm your account."
  }

  /** The checks of `handlePasswordReset`: an empty address first, then one lacking an
      `@` or a `.`. */
  function ResetCheck(email: string): (r: Option<string>)
    ensures r.None? <==> email != "" && '@' in email && '.' in email
    ensures email == "" ==> r == Some(EmailMissing)
    ensures email != "" && r.Some? ==> r == Some(EmailInvalid)
  {
    ContainsChar(email, '@');
    ContainsChar(email, '.');
    if email == "" then Some(EmailMissing)
    else if !Contains(email, "@") || !Contains(email, ".") then Some(EmailInvalid)
    else None
  }

  /** The form's state and what it has sent. */
  class AuthView {
    var loading: bool
    var message: Message
    var calls: seq<AuthCall>
    /** The route a pending `setTimeout(() => navigate(...))` will open. */
    var pendingNavigation: Option<string>

    constructor()
      ensures !loading && message == Cleared && calls == [] && pendingNavigation.None?
    {
      loading := false;
      message := Cleared;
      calls := [];
      pendingNavigation := None;
    }

    /** `handleAuth` in mode `mode`; `serviceError` is the error the service answers with. */
    method HandleAuth(mode: string, email: string, password: string, confirmPassword: string,
                      serviceError: Option<string>)
      modifies this
      ensures !loading
      ensures mode == "login" ==>
        && calls == old(calls) + [SignIn(email, password)]
        && (serviceError.Some? ==>
              message == Message(Failed, ShownError(serviceError.value)) && pendingNavigation == old(pendingNavigation))
        && (serviceError.None? ==> message == Message(Succeeded, LoginSucceeded) && pendingNavigation == Some("/"))
      ensures mode == "signup" && SignupCheck(password, confirmPassword).Some? ==>
        && calls == old(calls) && pendingNavigation == old(pendingNavigation)
        && message == Message(Failed, SignupCheck(password, confirmPassword).value)
      ensures mode == "signup" && SignupCheck(password, confirmPassword).None? ==>
        && calls == old(calls) + [SignUp(email, password)] && pendingNavigation == old(pendingNavigation)
        && message == if serviceError.Some? then Message(Failed, ShownError(serviceError.value))
                      else Message(Succeeded, SignupSucceeded(email))
      ensures mode != "login" && mode != "signup" ==>
        message == Cleared && calls == old(calls) && pendingNavigation == old(pendingNavigation)
    {
      loading := true;
      message := Cleared;
      if mode == "login" {
        calls := calls + [SignIn(email, password)];
        if serviceError.Some? {
          message := Message(Failed, ShownError(serviceError.value));
        } else {
          message := Message(Succeeded, LoginSucceeded);
          pendingNavigation := Some("/");
        }
      } else if mode == "signup" {
        var check := SignupCheck(password, confirmPassword);
        if check.Some? {
          SignupErrorShownAsIs(password, confirmPassword);
          message := Message(Failed, ShownError(check.value));
        } else {
          calls := calls + [SignUp(email, password)];
          if serviceError.Some? {
            message := Message(Failed, ShownError(serviceError.value));
          } else {
            message := Message(Succeeded, SignupSucceeded(email));
          }
        }
      }
      loading := false;
    }

    /** `handlePasswordReset`; `serviceError` is the error the service answers with. */
    method HandlePasswordReset(email: string, serviceError: Option<string>)
      modifies this
      ensures pendingNavigation == old(pendingNavigation)
      ensures ResetCheck(email).Some? ==>
        && message == Message(Failed, ResetCheck(email).value)
        && loading == old(loading) && calls == old(calls)
      ensures ResetCheck(email).None? ==>
        && !loading && calls == old(calls) + [ResetFor(email)]
        && message == if serviceError.Some? then Message(Failed, serviceError.value)
                      else Message(Succeeded, ResetSent)
    {
      var check := ResetCheck(email);
      if check.Some? {
        message := Message(Failed, check.value);
        return;
      }
      loading := true;
      message := Cleared;
      calls := calls + [ResetFor(email)];
      if serviceError.Some? {
        message := Message(Failed, serviceError.value);
      } else {
        message := Message(Succeeded, ResetSent);
      }
      loading := false;
    }
  }

  /** Logging in never reaches the sign-up checks: whatever the confirmation and the
      length, the request is sent. */
  method LoginSkipsLocalChecks(email: string, password: string, confirmPassword: string) returns (sent: seq<AuthCall>)
    ensures sent == [SignIn(email, password)]
  {
    var view := new AuthView();
    view.HandleAuth("login", email, password, confirmPassword, None);
    sent := view.calls;
  }
}
