/**
 * The sign-in state store and the handler both clients register with
 * `onAuthStateChanged` (React-Native stores/auth-store.ts and
 * hooks/useAuth.ts, Electron hooks/useAuth.ts). The allowlist lookup's
 * outcome is a parameter: its answer, or `None` when it threw.
 */
module Auth {
  import opened Wrappers
  import opened Notes
  import opened Allowlist

  /** The store's four fields. */
  datatype AuthState = AuthState(user: Option<AuthUser>, loading: bool, role: Option<Role>, authorized: Option<bool>)

  /** Before the first auth event: no user, loading, nothing decided. */
  const Initial: AuthState := AuthState(None, true, None, None)

  /** A granted authorization always comes with a role. */
  predicate Paired(s: AuthState) {
    s.authorized == Some(true) ==> s.role.Some?
  }

  /** `firebaseUser?.email` is truthy: a user whose email is present and not empty. */
  predicate HasEmail(u: Option<AuthUser>) {
    u.Some? && u.value.email.Some? && u.value.email.value != []
  }

  /**
   * One run of the mobile handler, with its catch: the user is recorded;
   * a user with an email gets the lookup's answer, or `(false, null)` when
   * the lookup fails; anyone else gets `(null, null)`; loading ends.
   */
  function Handle(s: AuthState, u: Option<AuthUser>, lookup: Option<Access>): (r: AuthState)
    ensures r.user == u && !r.loading
    ensures HasEmail(u) && lookup.Some? ==>
              r.authorized == Some(lookup.value.allowed) && r.role == Some(lookup.value.role)
    ensures HasEmail(u) && lookup.None? ==> r.authorized == Some(false) && r.role == None
    ensures !HasEmail(u) ==> r.authorized == None && r.role == None
  {
    var withUser := s.(user := u);
    var decided :=
      if HasEmail(u) then
        (if lookup.Some? then withUser.(authorized := Some(lookup.value.allowed), role := Some(lookup.value.role))
         else withUser.(authorized := Some(false), role := None))
      else withUser.(authorized := None, role := None);
    decided.(loading := false)
  }

  /** The handler's result does not depend on the state before it, and it keeps authorization paired with a role. */
  lemma HandleOverwrites(s: AuthState, t: AuthState, u: Option<AuthUser>, lookup: Option<Access>)
    ensures Handle(s, u, lookup) == Handle(t, u, lookup)
    ensures Paired(Handle(s, u, lookup))
  {
  }

  /**
   * The desktop handler as written: no catch, so a failed lookup ends the
   * run right after the user is recorded, leaving authorization and
   * loading as they were.
   */
  function DesktopHandleAsWritten(s: AuthState, u: Option<AuthUser>, lookup: Option<Access>): (r: AuthState)
    ensures r.user == u
    ensures HasEmail(u) && lookup.None? ==> r.loading == s.loading && r.authorized == s.authorized && r.role == s.role
    ensures !HasEmail(u) || lookup.Some? ==> r == Handle(s, u, lookup)
  {
    if HasEmail(u) && lookup.None? then s.(user := u) else Handle(s, u, lookup)
  }

  /** A failed lookup on the first auth event leaves the desktop client loading. */
  lemma DesktopFailureKeepsLoading(u: AuthUser)
    requires HasEmail(Some(u))
    ensures DesktopHandleAsWritten(Initial, Some(u), None).loading
    ensures !Handle(Initial, Some(u), None).loading
  {
  }

  /** The auth store. */
  class AuthStore {
    var user: Option<AuthUser>
    var loading: bool
    var role: Option<Role>
    var authorized: Option<bool>

    function State(): AuthState
      reads this
    {
      AuthState(user, loading, role, authorized)
    }

    constructor ()
      ensures State() == Initial
    {
      user := None;
      loading := true;
      role := None;
      authorized := None;
    }

    /** `setUser` changes only `user`. */
    method SetUser(u: Option<AuthUser>)
      modifies `user
      ensures user == u
    {
      user := u;
    }

    /** `setLoading` changes only `loading`. */
    method SetLoading(l: bool)
      modifies `loading
      ensures loading == l
    {
      loading := l;
    }

    /** `setAuthorization` sets `authorized` and `role` together, and nothing else. */
    method SetAuthorization(a: Option<bool>, r: Option<Role>)
      modifies `authorized, `role
      ensures authorized == a && role == r
    {
      authorized := a;
      role := r;
    }
  }

  /** The mobile `onAuthStateChanged` handler against the store. */
  method OnAuthStateChanged(store: AuthStore, u: Option<AuthUser>, lookup: Option<Access>)
    modifies store
    ensures store.State() == Handle(old(store.State()), u, lookup)
  {
    store.SetUser(u);
    if HasEmail(u) {
      if lookup.Some? {
        store.SetAuthorization(Some(lookup.value.allowed), Some(lookup.value.role));
      } else {
        store.SetAuthorization(Some(false), None);
      }
    } else {
      store.SetAuthorization(None, None);
    }
    store.SetLoading(false);
  }

  /** The desktop handler as written; `threw` reports the uncaught lookup failure. */
  method DesktopOnAuthStateChangedAsWritten(store: AuthStore, u: Option<AuthUser>, lookup: Option<Access>)
    returns (threw: bool)
    modifies store
    ensures threw <==> HasEmail(u) && lookup.None?
    ensures store.State() == DesktopHandleAsWritten(old(store.State()), u, lookup)
  {
    store.SetUser(u);
    if HasEmail(u) {
      if lookup.None? {
        return true;
      }
      store.SetAuthorization(Some(lookup.value.allowed), Some(lookup.value.role));
    } else {
      store.SetAuthorization(None, None);
    }
    store.SetLoading(false);
    threw := false;
  }
}
