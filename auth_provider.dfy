/**
 * The application-wide auth context (src/components/auth/AuthProvider.tsx):
 * the signed-in user, whether the first session lookup is still running, and
 * whether the re-authentication overlay is shown. Each handler runs to
 * completion; what the auth service answers is an input.
 */
module AuthProvider {
  import opened Wrappers

  /** The auth service's user; the context only passes it on. */
  datatype User = User(id: string)

  datatype Session = Session(user: User)

  /** The event names the auth service reports to `onAuthStateChange` listeners. */
  datatype AuthChangeEvent =
    | InitialSession | SignedIn | SignedOut | TokenRefreshed | UserUpdated | PasswordRecovery

  datatype VisibilityState = Visible | Hidden

  /** What `getSession()` resolved to when the page became visible. */
  datatype SessionLookup =
    | LookupError               // `error` set
    | NoSession                 // no error, but no session
    | Found(session: Session)   // a session

  /** Everything the provider reacts to. */
  datatype AuthInput =
    | InitialLookup(session: Option<Session>)                                        // first `getSession()` resolved
    | AuthStateChange(event: AuthChangeEvent, session: Option<Session>)              // listener fired
    | VisibilityChange(state: VisibilityState, lookup: SessionLookup, refreshFails: bool)
    | SignOut(rejected: bool)                                                       // `auth.signOut()` settled
    | ReauthSuccess
    | ReauthClose

  datatype AuthState = AuthState(user: Option<User>, loading: bool, showReauthModal: bool)

  /** The state of a freshly mounted provider. */
  const Initial := AuthState(None, true, false)

  /** The user carried by an optional session (`session?.user ?? null`). */
  function UserOf(session: Option<Session>): Option<User> {
    if session.Some? then Some(session.value.user) else None
  }

  /** The inputs that show the overlay: a token refresh that left no session, or a foreground check that failed. */
  predicate OpensModal(e: AuthInput) {
    || (e.AuthStateChange? && e.event == TokenRefreshed && e.session.None?)
    || (e.VisibilityChange? && e.state == Visible && (!e.lookup.Found? || e.refreshFails))
  }

  /** The inputs that hide the overlay: a sign-out that was not rejected, and both overlay callbacks. */
  predicate ClosesModal(e: AuthInput) {
    (e.SignOut? && !e.rejected) || e.ReauthSuccess? || e.ReauthClose?
  }

  /** How one input changes the provider's state. */
  function Next(s: AuthState, e: AuthInput): (t: AuthState)
    ensures OpensModal(e) ==> t.showReauthModal
    ensures ClosesModal(e) ==> !t.showReauthModal
    ensures !OpensModal(e) && !ClosesModal(e) ==> t.showReauthModal == s.showReauthModal
    ensures e.InitialLookup? || e.AuthStateChange? ==> t.user == UserOf(e.session) && !t.loading
    ensures !(e.InitialLookup? || e.AuthStateChange?) ==> t.user == s.user && t.loading == s.loading
  {
    match e
    case InitialLookup(session) =>
      AuthState(UserOf(session), false, s.showReauthModal)
    case AuthStateChange(event, session) =>
      AuthState(UserOf(session), false,
                if event == TokenRefreshed && session.None? then true else s.showReauthModal)
    case VisibilityChange(state, lookup, refreshFails) =>
      if state != Visible then s
      else if !lookup.Found? then s.(showReauthModal := true)
      else if refreshFails then s.(showReauthModal := true)
      else s
    case SignOut(rejected) => if rejected then s else s.(showReauthModal := false)
    case ReauthSuccess => s.(showReauthModal := false)
    case ReauthClose => s.(showReauthModal := false)
  }

  /** A change of visibility to anything but `visible` changes nothing. */
  lemma HiddenChangesNothing(s: AuthState, lookup: SessionLookup, refreshFails: bool)
    ensures Next(s, VisibilityChange(Hidden, lookup, refreshFails)) == s
  {
  }

  /** The overlay appears only on one of the opening inputs and disappears only on one of the closing ones. */
  lemma ModalTransitions(s: AuthState, e: AuthInput)
    ensures !s.showReauthModal && Next(s, e).showReauthModal ==> OpensModal(e)
    ensures s.showReauthModal && !Next(s, e).showReauthModal ==> ClosesModal(e)
  {
  }

  /** The state after a run of inputs. */
  function Run(s: AuthState, es: seq<AuthInput>): AuthState
    decreases |es|
  {
    if |es| == 0 then s else Run(Next(s, es[0]), es[1..])
  }

  /** Without an opening input, a hidden overlay stays hidden however many inputs arrive. */
  lemma {:induction false} ModalStaysHidden(s: AuthState, es: seq<AuthInput>)
    requires !s.showReauthModal
    requires forall i :: 0 <= i < |es| ==> !OpensModal(es[i])
    ensures !Run(s, es).showReauthModal
    decreases |es|
  {
    if |es| > 0 {
      ModalStaysHidden(Next(s, es[0]), es[1..]);
    }
  }

  /** Once loading has ended it never starts again. */
  lemma {:induction false} LoadingNeverResumes(s: AuthState, es: seq<AuthInput>)
    requires !s.loading
    ensures !Run(s, es).loading
    decreases |es|
  {
    if |es| > 0 {
      LoadingNeverResumes(Next(s, es[0]), es[1..]);
    }
  }

  /** The provider component with its three pieces of state and the routes it navigated to. */
  class AuthContext {
    var user: Option<User>
    var loading: bool
    var showReauthModal: bool
    var navigations: seq<string>

    function State(): AuthState
      reads this
    {
      AuthState(user, loading, showReauthModal)
    }

    /** Mounting: no user yet, loading, overlay hidden. */
    constructor ()
      ensures State() == Initial && navigations == []
    {
      user := None;
      loading := true;
      showReauthModal := false;
      navigations := [];
    }

    /** The first `getSession()` resolved with `session`. */
    method OnInitialSession(session: Option<Session>)
      modifies this
      ensures State() == Next(old(State()), InitialLookup(session))
      ensures navigations == old(navigations)
    {
      user := UserOf(session);
      loading := false;
    }

    /** The `onAuthStateChange` listener. */
    method OnAuthStateChange(event: AuthChangeEvent, session: Option<Session>)
      modifies this
      ensures State() == Next(old(State()), AuthStateChange(event, session))
      ensures navigations == old(navigations)
    {
      user := UserOf(session);
      loading := false;
      if event == TokenRefreshed && session.None? {
        showReauthModal := true;
      }
    }

    /**
     * `handleVisibilityChange`: on becoming visible, look the session up; with
     * no session (or a lookup error) ask for re-authentication, otherwise try a
     * refresh and ask only if that fails.
     */
    method HandleVisibilityChange(state: VisibilityState, lookup: SessionLookup, refreshFails: bool)
      modifies this
      ensures State() == Next(old(State()), VisibilityChange(state, lookup, refreshFails))
      ensures navigations == old(navigations)
    {
      if state == Visible {
        if !lookup.Found? {
          showReauthModal := true;
        } else {
          if refreshFails {
            showReauthModal := true;
          }
        }
      }
    }

    /**
     * `signOut`: after the auth service's sign-out, hide the overlay.
     * `rejected` is whether `auth.signOut()` rejected; the rejection reaches
     * the caller and the overlay is left as it was.
     */
    method SignOut(rejected: bool)
      modifies this
      ensures State() == Next(old(State()), AuthInput.SignOut(rejected))
      ensures rejected ==> State() == old(State())
      ensures navigations == old(navigations)
    {
      if !rejected {
        showReauthModal := false;
      }
    }

    /** `handleReauthSuccess`. */
    method HandleReauthSuccess()
      modifies this
      ensures State() == Next(old(State()), ReauthSuccess)
      ensures navigations == old(navigations)
    {
      showReauthModal := false;
    }

    /** `handleReauthClose`: hide the overlay and go to the offline recipes. */
    method HandleReauthClose()
      modifies this
      ensures State() == Next(old(State()), ReauthClose)
      ensures navigations == old(navigations) + ["/offline"]
    {
      showReauthModal := false;
      navigations := navigations + ["/offline"];
    }
  }
}
