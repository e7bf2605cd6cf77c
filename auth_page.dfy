/**
 * `src/pages/Auth.tsx`: the sign-in / sign-up page.
 *
 * The zod schema's bounds are stated here on UTF-16 lengths; its e-mail
 * format test is a parameter. The two identity-service calls are parameters
 * giving their results; toasts and navigations are recorded in fields.
 */
module Auth {
  import opened Base
  import opened JsText

  // ---------------------------------------------------------------------------
  // The schema

  /** The object handed to `authSchema.safeParse`. */
  datatype AuthInput = AuthInput(email: string, password: string, fullName: Option<string>)

  /** The issues of the `email` field: `trim`, then `email()`, then `max(255)`. */
  function EmailIssues(email: string, isEmail: string -> bool): seq<string> {
    var v := Trim(email);
    (if isEmail(v) then [] else ["Invalid email address"])
    + (if Length(v) <= 255 then [] else ["Email too long"])
  }

  /** The issues of the `password` field: `min(6)`, then `max(100)`. */
  function PasswordIssues(password: string): seq<string> {
    (if Length(password) >= 6 then [] else ["Password must be at least 6 characters"])
    + (if Length(password) <= 100 then [] else ["Password too long"])
  }

  /** The issues of the optional `fullName` field: none when it is absent. */
  function FullNameIssues(fullName: Option<string>): seq<string> {
    match fullName
    case None => []
    case Some(n) =>
      var v := Trim(n);
      (if Length(v) >= 1 then [] else ["Name is required"])
      + (if Length(v) <= 100 then [] else ["Name too long"])
  }

  /** All issues, in the order of the schema's fields. */
  function SchemaIssues(input: AuthInput, isEmail: string -> bool): seq<string> {
    EmailIssues(input.email, isEmail) + PasswordIssues(input.password) + FullNameIssues(input.fullName)
  }

  /** What the schema accepts. */
  predicate Accepted(input: AuthInput, isEmail: string -> bool) {
    && isEmail(Trim(input.email)) && Length(Trim(input.email)) <= 255
    && 6 <= Length(input.password) <= 100
    && (input.fullName.Some? ==> 1 <= Length(Trim(input.fullName.value)) <= 100)
  }

  lemma EmailIssuesEmpty(email: string, isEmail: string -> bool)
    ensures EmailIssues(email, isEmail) == [] <==> isEmail(Trim(email)) && Length(Trim(email)) <= 255
  {
  }

  lemma PasswordIssuesEmpty(password: string)
    ensures PasswordIssues(password) == [] <==> 6 <= Length(password) <= 100
  {
  }

  lemma FullNameIssuesEmpty(fullName: Option<string>)
    ensures FullNameIssues(fullName) == [] <==> (fullName.Some? ==> 1 <= Length(Trim(fullName.value)) <= 100)
  {
  }

  /** `safeParse` succeeds exactly on the accepted inputs. */
  lemma SchemaAcceptsExactly(input: AuthInput, isEmail: string -> bool)
    ensures SchemaIssues(input, isEmail) == [] <==> Accepted(input, isEmail)
  {
    EmailIssuesEmpty(input.email, isEmail);
    PasswordIssuesEmpty(input.password);
    FullNameIssuesEmpty(input.fullName);
    var e := EmailIssues(input.email, isEmail);
    var p := PasswordIssues(input.password);
    var n := FullNameIssues(input.fullName);
    assert |SchemaIssues(input, isEmail)| == |e| + |p| + |n|;
  }

  /** The first issue belongs to the first field that has one. */
  lemma FirstIssueFollowsFieldOrder(input: AuthInput, isEmail: string -> bool)
    requires SchemaIssues(input, isEmail) != []
    ensures EmailIssues(input.email, isEmail) != [] ==> SchemaIssues(input, isEmail)[0] == EmailIssues(input.email, isEmail)[0]
    ensures EmailIssues(input.email, isEmail) == [] && PasswordIssues(input.password) != [] ==>
      SchemaIssues(input, isEmail)[0] == PasswordIssues(input.password)[0]
    ensures EmailIssues(input.email, isEmail) == [] && PasswordIssues(input.password) == [] ==>
      SchemaIssues(input, isEmail)[0] == FullNameIssues(input.fullName)[0]
  {
  }

  /** The object `handleAuth` validates: the name only in sign-up mode. */
  function InputOf(isLogin: bool, email: string, password: string, fullName: string): AuthInput {
    AuthInput(Trim(email), password, if !isLogin then Some(Trim(fullName)) else None)
  }

  /** In login mode the name field plays no part. */
  lemma LoginIgnoresName(email: string, password: string, a: string, b: string, isEmail: string -> bool)
    ensures SchemaIssues(InputOf(true, email, password, a), isEmail) == SchemaIssues(InputOf(true, email, password, b), isEmail)
  {
  }

  // ---------------------------------------------------------------------------
  // The error mapping

  /** A caught error: its `name` and its `message` (absent or empty possible). */
  datatype Thrown = Thrown(name: string, message: Option<string>)

  /** The toast text, and whether the page switches to login mode. */
  datatype Mapped = Mapped(text: string, switchToLogin: bool)

  const AlreadyRegisteredText := "This email is already registered. Please login instead."
  const BadCredentialsText := "Invalid email or password."
  const ConnectionText := "Connection error. Please verify your internet connection and try again."
  const DefaultText := "An unexpected error occurred"

  /** `error.message?.toLowerCase().includes(p)`: false when there is no message.
      The three patterns are lower-case ASCII and none ends in `i`, so the ASCII
      lowering decides containment as the full Unicode lowering does. */
  predicate MessageHas(e: Thrown, p: string) {
    e.message.Some? && ContainsCI(e.message.value, p)
  }

  /** The catch block's rules, in priority order. */
  function MapError(e: Thrown): (m: Mapped)
    ensures MessageHas(e, "user already registered") ==> m == Mapped(AlreadyRegisteredText, true)
    ensures !MessageHas(e, "user already registered") ==> !m.switchToLogin
    ensures !MessageHas(e, "user already registered") && MessageHas(e, "invalid") && MessageHas(e, "credentials") ==>
      m.text == BadCredentialsText
    ensures !MessageHas(e, "user already registered") && !(MessageHas(e, "invalid") && MessageHas(e, "credentials")) ==>
      var fallback := if Truthy(e.message) then e.message.value else DefaultText;
      m.text == (if e.name == "TypeError" || Contains(fallback, "fetch") then ConnectionText else fallback)
    ensures m.text !in {AlreadyRegisteredText, BadCredentialsText, ConnectionText} ==>
      m.text == (if Truthy(e.message) then e.message.value else DefaultText)
  {
    var errorMessage := if Truthy(e.message) then e.message.value else DefaultText;
    if MessageHas(e, "user already registered") then Mapped(AlreadyRegisteredText, true)
    else if MessageHas(e, "invalid") && MessageHas(e, "credentials") then Mapped(BadCredentialsText, false)
    else if e.name == "TypeError" || Contains(errorMessage, "fetch") then Mapped(ConnectionText, false)
    else Mapped(errorMessage, false)
  }

  // ---------------------------------------------------------------------------
  // The page

  datatype Toast = Toast(title: string, description: string, destructive: bool)

  const LoggedInToast := Toast("Welcome back!", "You've successfully logged in.", false)
  const CreatedToast := Toast("Welcome!", "Your account has been created successfully.", false)
  const ConfirmEmailToast := Toast("Account created!", "Please check your email to confirm your account.", false)
  const CanLogInToast := Toast("Account created!", "You can now log in with your credentials.", false)

  function ErrorToast(m: Mapped): Toast {
    Toast("Authentication error", m.text, true)
  }

  /** A call made to the identity service. */
  datatype AuthRequest = SignIn(email: string, password: string) | SignUp(email: string, password: string, fullName: Option<string>)

  /** What `signUp` resolves to. `user` holds whether the user is confirmed. */
  datatype SignUpResult = SignUpFailed(error: Thrown) | SignedUp(hasSession: bool, user: Option<bool>)

  class AuthPage {
    var isLogin: bool
    var email: string
    var password: string
    var fullName: string
    var loading: bool
    var requests: seq<AuthRequest>
    var toasts: seq<Toast>
    var navigations: seq<string>

    constructor ()
      ensures isLogin && email == "" && password == "" && fullName == "" && !loading
      ensures requests == [] && toasts == [] && navigations == []
    {
      isLogin := true;
      email := "";
      password := "";
      fullName := "";
      loading := false;
      requests := [];
      toasts := [];
      navigations := [];
    }

    /** The mount effect: an existing session goes straight to `/admin`. */
    method OnMount(hasSession: bool)
      modifies this
      ensures navigations == old(navigations) + (if hasSession then ["/admin"] else [])
      ensures isLogin == old(isLogin) && loading == old(loading) && requests == old(requests) && toasts == old(toasts)
    {
      if hasSession {
        navigations := navigations + ["/admin"];
      }
    }

    /** The mode switch under the form. */
    method ToggleMode()
      modifies this
      ensures isLogin == !old(isLogin)
      ensures loading == old(loading) && requests == old(requests) && toasts == old(toasts) && navigations == old(navigations)
    {
      isLogin := !isLogin;
    }

    /** `handleAuth`, given the e-mail format test and what each identity-service
        call would return. */
    method HandleAuth(isEmail: string -> bool, signInError: Option<Thrown>, signUpResult: SignUpResult)
      modifies this
      ensures !loading
      ensures email == old(email) && password == old(password) && fullName == old(fullName)
      ensures var input := InputOf(old(isLogin), old(email), old(password), old(fullName));
        var issues := SchemaIssues(input, isEmail);
        issues != [] ==>
          && requests == old(requests) && navigations == old(navigations)
          && toasts == old(toasts) + [ErrorToast(MapError(Thrown("Error", Some(issues[0]))))]
          && isLogin == (old(isLogin) || MapError(Thrown("Error", Some(issues[0]))).switchToLogin)
      ensures var input := InputOf(old(isLogin), old(email), old(password), old(fullName));
        SchemaIssues(input, isEmail) == [] && old(isLogin) ==>
          && requests == old(requests) + [SignIn(input.email, input.password)]
          && isLogin
          && (signInError.None? ==>
                toasts == old(toasts) + [LoggedInToast]
                && navigations == old(navigations) + ["/admin"])
          && (signInError.Some? ==>
                toasts == old(toasts) + [ErrorToast(MapError(signInError.value))]
                && navigations == old(navigations))
      ensures var input := InputOf(old(isLogin), old(email), old(password), old(fullName));
        SchemaIssues(input, isEmail) == [] && !old(isLogin) ==>
          && requests == old(requests) + [SignUp(input.email, input.password, input.fullName)]
          && (signUpResult.SignUpFailed? ==>
                && toasts == old(toasts) + [ErrorToast(MapError(signUpResult.error))]
                && navigations == old(navigations)
                && isLogin == MapError(signUpResult.error).switchToLogin)
          && (signUpResult.SignedUp? && signUpResult.hasSession ==>
                && toasts == old(toasts) + [CreatedToast]
                && navigations == old(navigations) + ["/admin"] && !isLogin)
          && (signUpResult.SignedUp? && !signUpResult.hasSession && signUpResult.user == Some(false) ==>
                && toasts == old(toasts) + [ConfirmEmailToast]
                && navigations == old(navigations) && !isLogin)
          && (signUpResult.SignedUp? && !signUpResult.hasSession && signUpResult.user != Some(false) ==>
                && toasts == old(toasts) + [CanLogInToast]
                && navigations == old(navigations) && isLogin)
    {
      loading := true;
      var input := InputOf(isLogin, email, password, fullName);
      var issues := SchemaIssues(input, isEmail);
      var failure: Option<Thrown> := None;
      if issues != [] {
        failure := Some(Thrown("Error", Some(issues[0])));
      } else if isLogin {
        failure := SignInStep(input, signInError);
      } else {
        failure := SignUpStep(input, signUpResult);
      }
      if failure.Some? {
        ReportFailure(failure.value);
      }
      loading := false;
    }

    /** The login branch; a returned error goes to the catch block. */
    method SignInStep(input: AuthInput, signInError: Option<Thrown>) returns (failure: Option<Thrown>)
      modifies this
      ensures failure == signInError
      ensures requests == old(requests) + [SignIn(input.email, input.password)]
      ensures signInError.None? ==>
        toasts == old(toasts) + [LoggedInToast]
        && navigations == old(navigations) + ["/admin"]
      ensures signInError.Some? ==> toasts == old(toasts) && navigations == old(navigations)
      ensures isLogin == old(isLogin) && loading == old(loading)
      ensures email == old(email) && password == old(password) && fullName == old(fullName)
    {
      requests := requests + [SignIn(input.email, input.password)];
      failure := signInError;
      if signInError.None? {
        toasts := toasts + [LoggedInToast];
        navigations := navigations + ["/admin"];
      }
    }

    /** The sign-up branch; a returned error goes to the catch block. */
    method SignUpStep(input: AuthInput, result: SignUpResult) returns (failure: Option<Thrown>)
      modifies this
      ensures failure == (if result.SignUpFailed? then Some(result.error) else None)
      ensures requests == old(requests) + [SignUp(input.email, input.password, input.fullName)]
      ensures result.SignUpFailed? ==> toasts == old(toasts) && navigations == old(navigations) && isLogin == old(isLogin)
      ensures result.SignedUp? && result.hasSession ==>
        && toasts == old(toasts) + [CreatedToast]
        && navigations == old(navigations) + ["/admin"] && isLogin == old(isLogin)
      ensures result.SignedUp? && !result.hasSession && result.user == Some(false) ==>
        && toasts == old(toasts) + [ConfirmEmailToast]
        && navigations == old(navigations) && isLogin == old(isLogin)
      ensures result.SignedUp? && !result.hasSession && result.user != Some(false) ==>
        && toasts == old(toasts) + [CanLogInToast]
        && navigations == old(navigations) && isLogin
      ensures loading == old(loading)
      ensures email == old(email) && password == old(password) && fullName == old(fullName)
    {
      requests := requests + [SignUp(input.email, input.password, input.fullName)];
      failure := None;
      match result
      case SignUpFailed(error) =>
        failure := Some(error);
      case SignedUp(hasSession, user) =>
        if hasSession {
          toasts := toasts + [CreatedToast];
          navigations := navigations + ["/admin"];
        } else if user == Some(false) {
          toasts := toasts + [ConfirmEmailToast];
        } else {
          toasts := toasts + [CanLogInToast];
          isLogin := true;
        }
    }

    /** The catch block: map the error, maybe switch to login, show the toast. */
    method ReportFailure(e: Thrown)
      modifies this
      ensures toasts == old(toasts) + [ErrorToast(MapError(e))]
      ensures isLogin == (old(isLogin) || MapError(e).switchToLogin)
      ensures requests == old(requests) && navigations == old(navigations) && loading == old(loading)
      ensures email == old(email) && password == old(password) && fullName == old(fullName)
    {
      var mapped := MapError(e);
      if mapped.switchToLogin {
        isLogin := true;
      }
      toasts := toasts + [ErrorToast(mapped)];
    }
  }
}
