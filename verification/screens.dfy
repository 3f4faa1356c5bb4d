/**
 * The top-level screens of both clients: which screen the auth state
 * selects (Electron App.tsx, React-Native App.tsx), the note-selection
 * store (React-Native stores/note-store.ts), and the guarded new, delete
 * and pin handlers (Electron App.tsx, React-Native screens/MainScreen.tsx).
 */
module Screens {
  import opened Wrappers
  import opened Notes
  import opened NoteStore
  import opened Allowlist
  import opened Auth
  import Text

  datatype Screen = Loading | Login | Unauthorized | Main(role: Option<Role>)

  /** The desktop chain: loading, then no user, then not authorized (false or null), else the main view. */
  function DesktopRoute(s: AuthState): (r: Screen)
    ensures r == Loading <==> s.loading
    ensures r == Login <==> !s.loading && s.user.None?
    ensures r == Unauthorized <==> !s.loading && s.user.Some? && s.authorized != Some(true)
    ensures r.Main? <==> !s.loading && s.user.Some? && s.authorized == Some(true)
    ensures r.Main? ==> r.role == s.role
  {
    if s.loading then Loading
    else if s.user.None? then Login
    else if s.authorized != Some(true) then Unauthorized
    else Main(s.role)
  }

  /**
   * The mobile chain: loading, then no user, then an explicit refusal,
   * then a missing role (shown as loading), else the main screen.
   */
  function MobileRoute(s: AuthState): (r: Screen)
    ensures r == Loading <==> s.loading || (s.user.Some? && s.authorized != Some(false) && s.role.None?)
    ensures r == Login <==> !s.loading && s.user.None?
    ensures r == Unauthorized <==> !s.loading && s.user.Some? && s.authorized == Some(false)
    ensures r.Main? <==> !s.loading && s.user.Some? && s.authorized != Some(false) && s.role.Some?
    ensures r.Main? ==> r.role == s.role
  {
    if s.loading then Loading
    else if s.user.None? then Login
    else if s.authorized == Some(false) then Unauthorized
    else if s.role.None? then Loading
    else Main(s.role)
  }

  /** Once the lookup has answered, both clients show the same screen. */
  lemma RoutesAgreeWhenDecided(s: AuthState)
    requires s.authorized.Some? && Paired(s)
    ensures MobileRoute(s) == DesktopRoute(s)
  {
    if s.authorized.value {
      assert DesktopRoute(s) == MobileRoute(s);
    } else {
      assert DesktopRoute(s) == MobileRoute(s);
    }
  }

  /**
   * The desktop handler as written leaves the client on the loading
   * screen when the first lookup fails; with the failure caught, it shows
   * the unauthorized screen.
   */
  lemma DesktopLookupFailureRoute(u: AuthUser)
    requires HasEmail(Some(u))
    ensures DesktopRoute(DesktopHandleAsWritten(Initial, Some(u), None)) == Loading
    ensures DesktopRoute(Handle(Initial, Some(u), None)) == Unauthorized
  {
  }

  /** After the superadmin removes an allowlisted user, that user's next sign-in ends on the unauthorized screen. */
  lemma RemovedUserRefused(s: AuthState, users: map<string, AllowedUserDoc>, u: AuthUser, email: string, superadmin: string)
    requires WellKeyed(users) && IsKey(email) && email != []
    requires !IsSuperAdmin(Some(email), superadmin) && u.email == Some(email)
    ensures var lookup := Some(CheckUserAllowed(RemoveEntry(users, email), email, superadmin));
            MobileRoute(Handle(s, Some(u), lookup)) == Unauthorized && DesktopRoute(Handle(s, Some(u), lookup)) == Unauthorized
  {
    RemoveThenCheck(users, email, superadmin);
    var after := Handle(s, Some(u), Some(Access(false, User)));
    assert after.user == Some(u) && !after.loading && after.authorized == Some(false);
  }

  /** A user added to the allowlist reaches the main screen with the role given, on both clients. */
  lemma AddedUserAdmitted(s: AuthState, users: map<string, AllowedUserDoc>, u: AuthUser, email: string, role: Role,
                          addedBy: string, now: int, superadmin: string)
    requires u.email.Some? && u.email.value != [] && Text.ToLower(u.email.value) == Normalize(email)
    requires !IsSuperAdmin(u.email, superadmin)
    ensures var lookup := Some(CheckUserAllowed(AddEntry(users, email, role, addedBy, now), u.email.value, superadmin));
            MobileRoute(Handle(s, Some(u), lookup)) == Main(Some(role)) && DesktopRoute(Handle(s, Some(u), lookup)) == Main(Some(role))
  {
    AddThenCheck(users, email, role, addedBy, now, u.email.value, superadmin);
  }

  /** The note-selection store. */
  class NoteSelection {
    var selectedNoteId: Option<string>
    var searchQuery: string

    constructor ()
      ensures selectedNoteId == None && searchQuery == ""
    {
      selectedNoteId := None;
      searchQuery := "";
    }

    /** `setSelectedNoteId` changes only the selection; setting the same id again changes nothing. */
    method SetSelectedNoteId(id: Option<string>)
      modifies `selectedNoteId
      ensures selectedNoteId == id
    {
      selectedNoteId := id;
    }

    /** `setSearchQuery` changes only the query. */
    method SetSearchQuery(query: string)
      modifies `searchQuery
      ensures searchQuery == query
    {
      searchQuery := query;
    }
  }

  /** The desktop guard for creating and deleting notes: a signed-in superadmin. */
  predicate DesktopMayManageNotes(user: Option<AuthUser>, role: Option<Role>) {
    user.Some? && role == Some(Superadmin)
  }

  /** Creates a note under the fresh id and selects it. */
  method CreateAndSelect(p: Platform, store: NoteCollection, selection: NoteSelection, user: AuthUser, id: string, now: int)
    requires id !in store.docs
    modifies store, selection`selectedNoteId
    ensures store.docs == old(store.docs)[id := NewNote(p, user, now)]
    ensures selection.selectedNoteId == Some(id)
  {
    var created := store.CreateNote(p, user, id, now);
    selection.SetSelectedNoteId(Some(created));
  }

  /** Soft-deletes a note and clears the selection exactly when the deleted note was selected; a failed delete leaves both. */
  method DeleteAndDeselect(store: NoteCollection, selection: NoteSelection, noteId: string, user: AuthUser, now: int)
    returns (ok: bool)
    modifies store, selection`selectedNoteId
    ensures ok <==> noteId in old(store.docs)
    ensures ok ==> store.docs == old(store.docs)[noteId := WithDeleted(old(store.docs)[noteId], user, now)]
    ensures !ok ==> store.docs == old(store.docs)
    ensures selection.selectedNoteId == if ok && old(selection.selectedNoteId) == Some(noteId) then None else old(selection.selectedNoteId)
  {
    ok := store.DeleteNote(noteId, user, now);
    if ok && selection.selectedNoteId == Some(noteId) {
      selection.SetSelectedNoteId(None);
    }
  }

  /** Desktop `handleNewNote`: only a signed-in superadmin creates; anyone else changes nothing. */
  method DesktopNewNote(store: NoteCollection, selection: NoteSelection, user: Option<AuthUser>, role: Option<Role>,
                        id: string, now: int)
    requires id !in store.docs
    modifies store, selection`selectedNoteId
    ensures DesktopMayManageNotes(user, role) ==>
              store.docs == old(store.docs)[id := NewNote(Desktop, user.value, now)] && selection.selectedNoteId == Some(id)
    ensures !DesktopMayManageNotes(user, role) ==>
              store.docs == old(store.docs) && selection.selectedNoteId == old(selection.selectedNoteId)
  {
    if DesktopMayManageNotes(user, role) {
      CreateAndSelect(Desktop, store, selection, user.value, id, now);
    }
  }

  /** Mobile `handleNewNote`: the superadmin only. */
  method MobileNewNote(store: NoteCollection, selection: NoteSelection, user: AuthUser, role: Role, id: string, now: int)
    requires id !in store.docs
    modifies store, selection`selectedNoteId
    ensures role == Superadmin ==>
              store.docs == old(store.docs)[id := NewNote(Mobile, user, now)] && selection.selectedNoteId == Some(id)
    ensures role != Superadmin ==>
              store.docs == old(store.docs) && selection.selectedNoteId == old(selection.selectedNoteId)
  {
    if role == Superadmin {
      CreateAndSelect(Mobile, store, selection, user, id, now);
    }
  }

  /** Desktop `handleDelete`: a signed-in superadmin only; a failure is caught and logged. */
  method DesktopDelete(store: NoteCollection, selection: NoteSelection, user: Option<AuthUser>, role: Option<Role>,
                       noteId: string, now: int)
    modifies store, selection`selectedNoteId
    ensures !DesktopMayManageNotes(user, role) || noteId !in old(store.docs) ==>
              store.docs == old(store.docs) && selection.selectedNoteId == old(selection.selectedNoteId)
    ensures DesktopMayManageNotes(user, role) && noteId in old(store.docs) ==>
              && store.docs == old(store.docs)[noteId := WithDeleted(old(store.docs)[noteId], user.value, now)]
              && selection.selectedNoteId == if old(selection.selectedNoteId) == Some(noteId) then None else old(selection.selectedNoteId)
  {
    if DesktopMayManageNotes(user, role) {
      var _ := DeleteAndDeselect(store, selection, noteId, user.value, now);
    }
  }

  /** Mobile `handleDelete`: the superadmin only; a failed delete rejects, reported as `threw`. */
  method MobileDelete(store: NoteCollection, selection: NoteSelection, user: AuthUser, role: Role, noteId: string, now: int)
    returns (threw: bool)
    modifies store, selection`selectedNoteId
    ensures threw <==> role == Superadmin && noteId !in old(store.docs)
    ensures role != Superadmin || threw ==>
              store.docs == old(store.docs) && selection.selectedNoteId == old(selection.selectedNoteId)
    ensures role == Superadmin && !threw ==>
              && store.docs == old(store.docs)[noteId := WithDeleted(old(store.docs)[noteId], user, now)]
              && selection.selectedNoteId == if old(selection.selectedNoteId) == Some(noteId) then None else old(selection.selectedNoteId)
  {
    threw := false;
    if role == Superadmin {
      var ok := DeleteAndDeselect(store, selection, noteId, user, now);
      threw := !ok;
    }
  }

  /** Desktop `handleTogglePin`: any signed-in user. */
  method DesktopTogglePin(store: NoteCollection, user: Option<AuthUser>, noteId: string, isPinned: bool, now: int)
    modifies store
    ensures user.Some? && noteId in old(store.docs) ==>
              store.docs == old(store.docs)[noteId := WithPin(old(store.docs)[noteId], isPinned, user.value, now)]
    ensures user.None? || noteId !in old(store.docs) ==> store.docs == old(store.docs)
  {
    if user.Some? {
      var _ := store.TogglePinNote(noteId, isPinned, user.value, now);
    }
  }

  /** Mobile `handleTogglePin`: no role check at all. */
  method MobileTogglePin(store: NoteCollection, user: AuthUser, noteId: string, isPinned: bool, now: int)
    returns (threw: bool)
    modifies store
    ensures threw <==> noteId !in old(store.docs)
    ensures !threw ==> store.docs == old(store.docs)[noteId := WithPin(old(store.docs)[noteId], isPinned, user, now)]
    ensures threw ==> store.docs == old(store.docs)
  {
    var ok := store.TogglePinNote(noteId, isPinned, user, now);
    threw := !ok;
  }

  /** The desktop key binding: Ctrl+N or Cmd+N, for the superadmin only. */
  predicate NewNoteShortcut(role: Option<Role>, ctrlKey: bool, metaKey: bool, key: string) {
    role == Some(Superadmin) && (ctrlKey || metaKey) && key == "n"
  }

  /** The keydown handler: the shortcut runs `handleNewNote`; any other key changes nothing. */
  method OnKeyDown(store: NoteCollection, selection: NoteSelection, user: Option<AuthUser>, role: Option<Role>,
                   ctrlKey: bool, metaKey: bool, key: string, id: string, now: int)
    returns (handled: bool)
    requires id !in store.docs
    modifies store, selection`selectedNoteId
    ensures handled <==> NewNoteShortcut(role, ctrlKey, metaKey, key)
    ensures handled && user.Some? ==>
              store.docs == old(store.docs)[id := NewNote(Desktop, user.value, now)] && selection.selectedNoteId == Some(id)
    ensures !handled || user.None? ==>
              store.docs == old(store.docs) && selection.selectedNoteId == old(selection.selectedNoteId)
  {
    handled := NewNoteShortcut(role, ctrlKey, metaKey, key);
    if handled {
      DesktopNewNote(store, selection, user, role, id, now);
    }
  }
}
