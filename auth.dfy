/** The session store (src/contexts/AuthContext.tsx): the provider's `user`
    and `loading` state, set by the initial fetch and by auth-change events,
    the sign-in, sign-up and sign-out handlers with their results and
    toasts, and the `useAuth` guard. What the remote auth service answers is
    an input to each operation. */
module Auth {
  import opened Collections

  datatype AuthUser = AuthUser(id: string, email: Option<string>)

  /** What an auth-change event carries: a session with its user, or none. */
  datatype Session = Session(user: AuthUser)

  /** What `getCurrentUser()` comes back with. */
  datatype FetchOutcome =
    | Fetched(user: Option<AuthUser>)
    | FetchError(message: string)
    | FetchThrew

  /** A thrown value: an `Error` with its message, or anything else. */
  datatype Thrown = ErrorValue(message: string) | NonErrorValue

  /** What `signInWithPassword` / `signUp` come back with. */
  datatype RemoteOutcome = Accepted | Rejected(message: string) | Threw(thrown: Thrown)

  /** `{ success, error? }`. */
  datatype AuthResult = AuthResult(success: bool, error: Option<string>)

  datatype Variant = DefaultVariant | Destructive

  datatype Toast = Toast(title: string, description: string, variant: Variant)

  /** The handlers' response: the result returned and the toast shown. */
  datatype Response = Response(result: AuthResult, toast: Toast)

  const UnknownError := "An unknown error occurred"

  /** `error instanceof Error ? error.message : 'An unknown error occurred'`. */
  function ErrorMessage(t: Thrown): (m: string)
    ensures t.ErrorValue? ==> m == t.message
    ensures t.NonErrorValue? ==> m == UnknownError
  {
    match t
    case ErrorValue(message) => message
    case NonErrorValue => UnknownError
  }

  /** The wording of one handler's toasts: the failure title, and the
      success title and text. */
  datatype Wording = Wording(failTitle: string, okTitle: string, okText: string)

  const SignInWording := Wording("Login failed", "Logged in successfully", "Welcome back!")
  const SignUpWording := Wording("Sign up failed", "Sign up successful", "Please check your email for confirmation.")

  /** The common shape of `handleSignIn` and `handleSignUp`: success exactly
      when the remote accepts; a rejection returns the remote's message and
      a thrown value its `Error` message or the fallback; every failure shows
      a destructive toast repeating the returned error. */
  function HandleOutcome(o: RemoteOutcome, w: Wording): (r: Response)
    ensures r.result.success <==> o.Accepted?
    ensures r.result.success ==>
              r.result.error.None? && r.toast == Toast(w.okTitle, w.okText, DefaultVariant)
    ensures o.Rejected? ==> r.result.error == Some(o.message)
    ensures o.Threw? ==> r.result.error == Some(ErrorMessage(o.thrown))
    ensures !r.result.success ==>
              r.result.error.Some? && r.toast == Toast(w.failTitle, r.result.error.value, Destructive)
  {
    match o
    case Accepted => Response(AuthResult(true, None), Toast(w.okTitle, w.okText, DefaultVariant))
    case Rejected(message) => Response(AuthResult(false, Some(message)), Toast(w.failTitle, message, Destructive))
    case Threw(t) =>
      var message := ErrorMessage(t);
      Response(AuthResult(false, Some(message)), Toast(w.failTitle, message, Destructive))
  }

  function SignInResponse(o: RemoteOutcome): Response
  {
    HandleOutcome(o, SignInWording)
  }

  function SignUpResponse(o: RemoteOutcome): Response
  {
    HandleOutcome(o, SignUpWording)
  }

  /** Sign-up returns exactly what sign-in returns for the same remote
      outcome; only the toasts' wording differs. A failure's toast always
      repeats the returned error. */
  lemma SignUpMirrorsSignIn(o: RemoteOutcome)
    ensures SignUpResponse(o).result == SignInResponse(o).result
    ensures SignUpResponse(o).toast.variant == SignInResponse(o).toast.variant
    ensures !SignInResponse(o).result.success ==>
              SignInResponse(o).toast.description == SignUpResponse(o).toast.description
                                                  == SignInResponse(o).result.error.value
  {
  }

  const SignOutToast := Toast("Logged out", "You have been logged out successfully.", DefaultVariant)

  /** The context `value`, as far as the guard reads it. */
  datatype AuthState = AuthState(user: Option<AuthUser>, loading: bool)

  class AuthProvider {
    /** The `user` state. */
    var user: Option<AuthUser>
    /** The `loading` state. */
    var loading: bool

    constructor ()
      ensures user.None? && loading
    {
      user := None;
      loading := true;
    }

    /** The context value the provider hands down. */
    function State(): AuthState
      reads this
    {
      AuthState(user, loading)
    }

    /** `fetchUser` finishing: the `finally` clears `loading` on every path,
        and `user` is only set when the fetch answered without an error. */
    method FinishFetch(outcome: FetchOutcome)
      modifies this
      ensures !loading
      ensures outcome.Fetched? ==> user == outcome.user
      ensures !outcome.Fetched? ==> user == old(user)
    {
      match outcome {
        case Fetched(u) =>
          user := u;
        case FetchError(_) =>
        case FetchThrew =>
      }
      loading := false;
    }

    /** The `onAuthStateChange` listener: `session?.user ?? null`. */
    method OnAuthStateChange(session: Option<Session>)
      modifies this
      ensures session.Some? ==> user == Some(session.value.user)
      ensures session.None? ==> user.None?
      ensures !loading
    {
      user := match session case Some(s) => Some(s.user) case None => None;
      loading := false;
    }

    /** `handleSignIn`; it changes no state of the provider. */
    method SignIn(outcome: RemoteOutcome) returns (r: AuthResult, shown: Toast)
      ensures Response(r, shown) == SignInResponse(outcome)
    {
      var response := SignInResponse(outcome);
      r := response.result;
      shown := response.toast;
    }

    /** `handleSignUp`; it changes no state of the provider. */
    method SignUp(outcome: RemoteOutcome) returns (r: AuthResult, shown: Toast)
      ensures Response(r, shown) == SignUpResponse(outcome)
    {
      var response := SignUpResponse(outcome);
      r := response.result;
      shown := response.toast;
    }

    /** `handleSignOut`: the session ends remotely, and the user is cleared
        only by the auth-change event that follows. */
    method SignOut() returns (shown: Toast)
      ensures shown == SignOutToast
    {
      shown := SignOutToast;
    }
  }

  const OutsideProvider := "useAuth must be used within an AuthProvider"

  /** `useAuth`: the context value inside a provider, an error outside. */
  function UseAuth(context: Option<AuthState>): (r: Result<AuthState>)
    ensures context.None? <==> r == Failure(OutsideProvider)
    ensures context.Some? ==> r == Success(context.value)
  {
    match context
    case None => Failure(OutsideProvider)
    case Some(value) => Success(value)
  }
}
