/**
 * The desktop note editor's synchronisation rules (Electron
 * components/NoteEditor.tsx): local edits set a flag and schedule a
 * debounced save of the note the editor tracks; a new note id replaces
 * the content; a remote change is applied only to an unfocused editor
 * with no local edit since the last sync. The rich-text editor is its
 * content and a focus flag.
 */
module DesktopEditor {
  import opened Wrappers
  import opened Content
  import opened Notes
  import opened NoteStore
  import opened Debounce

  /** `useDebounce(saveContent, 1000)`. */
  const SaveDelay: nat := 1000

  /** The arguments of a save: which note, what content. */
  datatype SaveRequest = SaveRequest(noteId: string, content: Doc)

  /** The component's refs, the editor, and the debounced save's timer slot. */
  datatype EditorState = EditorState(
    noteIdRef: string,
    isLocalUpdate: bool,
    content: Doc,
    focused: bool,
    saveTimer: Pending<SaveRequest>)

  /** First render: the refs start at the note's id and `false`; the editor holds the note's content. */
  function Mount(noteId: string, content: Doc): (r: EditorState)
    ensures r.noteIdRef == noteId && !r.isLocalUpdate && r.content == content
    ensures !r.focused && r.saveTimer == Idle
  {
    EditorState(noteId, false, content, false, Idle)
  }

  /**
   * `onUpdate`, a local edit at `now`: a save already due by then has run
   * (it is returned); the editor holds the edit, the flag is set, and the
   * save is rescheduled for the note the ref tracks now.
   */
  function AfterEdit(s: EditorState, edited: Doc, now: int): (r: (EditorState, Option<SaveRequest>))
    ensures r.0.isLocalUpdate && r.0.content == edited
    ensures r.0.saveTimer == Scheduled(SaveRequest(s.noteIdRef, edited), now + SaveDelay)
    ensures r.0.noteIdRef == s.noteIdRef && r.0.focused == s.focused
    ensures Due(s.saveTimer, now) ==> r.1 == Some(s.saveTimer.args)
    ensures !Due(s.saveTimer, now) ==> r.1 == None
  {
    var (timer, fired) := Step(s.saveTimer, Call(SaveRequest(s.noteIdRef, edited), now), SaveDelay);
    (s.(isLocalUpdate := true, content := edited, saveTimer := timer), fired)
  }

  /** The first effect: a note with another id takes over the ref, clears the flag and replaces the content. */
  function AfterSwitch(s: EditorState, noteId: string, noteContent: Doc): (r: EditorState)
    ensures noteId != s.noteIdRef ==> r.noteIdRef == noteId && !r.isLocalUpdate && r.content == noteContent
    ensures noteId == s.noteIdRef ==> r == s
    ensures r.focused == s.focused && r.saveTimer == s.saveTimer
  {
    if noteId != s.noteIdRef then s.(noteIdRef := noteId, isLocalUpdate := false, content := noteContent)
    else s
  }

  /** The condition under which the second effect applies remote content. */
  predicate AcceptsRemote(s: EditorState, noteId: string) {
    noteId == s.noteIdRef && !s.focused && !s.isLocalUpdate
  }

  /**
   * The second effect: remote content replaces the editor's only for the
   * tracked note, while unfocused and with no local edit pending; the flag
   * is cleared in every case.
   */
  function AfterSync(s: EditorState, noteId: string, noteContent: Doc): (r: EditorState)
    ensures !r.isLocalUpdate
    ensures AcceptsRemote(s, noteId) ==> r.content == noteContent
    ensures !AcceptsRemote(s, noteId) ==> r.content == s.content
    ensures r.noteIdRef == s.noteIdRef && r.focused == s.focused && r.saveTimer == s.saveTimer
  {
    s.(content := if AcceptsRemote(s, noteId) then noteContent else s.content, isLocalUpdate := false)
  }

  /** While the editor is focused, no remote change reaches it. */
  lemma FocusedKeepsContent(s: EditorState, noteId: string, noteContent: Doc)
    requires s.focused
    ensures AfterSync(s, noteId, noteContent).content == s.content
  {
  }

  /**
   * One local edit suppresses exactly one sync: the first remote content
   * after the edit is ignored, the next one (editor still unfocused) is applied.
   */
  lemma OneEditSuppressesOneSync(s: EditorState, edited: Doc, now: int, remote1: Doc, remote2: Doc)
    requires !s.focused
    ensures var s1 := AfterSync(AfterEdit(s, edited, now).0, s.noteIdRef, remote1);
            var s2 := AfterSync(s1, s.noteIdRef, remote2);
            s1.content == edited && s2.content == remote2
  {
  }

  /** An edit after a switch saves to the newly shown note, not to the one the editor showed before. */
  lemma SaveTargetsCurrentNote(s: EditorState, noteId: string, noteContent: Doc, edited: Doc, now: int)
    ensures var r := AfterEdit(AfterSwitch(s, noteId, noteContent), edited, now).0;
            r.saveTimer == Scheduled(SaveRequest(noteId, edited), now + SaveDelay)
  {
  }

  /**
   * A save scheduled before a switch is not lost to an edit of the new
   * note: when the edit comes after the old save was due, the old note's
   * save runs, with the old note's id and content.
   */
  lemma SwitchKeepsPendingSave(s: EditorState, first: Doc, t: int, noteId: string, noteContent: Doc, second: Doc, later: int)
    requires later >= t + SaveDelay
    ensures var s1 := AfterSwitch(AfterEdit(s, first, t).0, noteId, noteContent);
            AfterEdit(s1, second, later).1 == Some(SaveRequest(s.noteIdRef, first))
  {
  }

  /**
   * What a save that ran (or none) leaves in the notes: the note it names,
   * when it exists, holds the saved content; nothing else changes.
   */
  ghost predicate Saved(before: map<string, Note>, after: map<string, Note>, ran: Option<SaveRequest>, user: AuthUser, now: int) {
    if ran.Some? && ran.value.noteId in before then
      after == before[ran.value.noteId := WithContent(before[ran.value.noteId], ran.value.content, user, now)]
    else after == before
  }

  /**
   * `saveContent`: the debounced save writes through `updateNoteContent`;
   * a failure (here: the note no longer exists) is caught and not passed
   * on, so the save always completes.
   */
  method SaveContent(store: NoteCollection, request: SaveRequest, user: AuthUser, now: int)
    modifies store
    ensures Saved(old(store.docs), store.docs, Some(request), user, now)
  {
    var _ := store.UpdateNoteContent(request.noteId, request.content, user, now);
  }

  /** The mounted desktop editor. */
  class DesktopNoteEditor {
    var noteIdRef: string
    var isLocalUpdate: bool
    var content: Doc
    var focused: bool
    var saveTimer: Pending<SaveRequest>

    function State(): EditorState
      reads this
    {
      EditorState(noteIdRef, isLocalUpdate, content, focused, saveTimer)
    }

    constructor (noteId: string, noteContent: Doc)
      ensures State() == Mount(noteId, noteContent)
    {
      noteIdRef := noteId;
      isLocalUpdate := false;
      content := noteContent;
      focused := false;
      saveTimer := Idle;
    }

    /** The user edits the document at time `now`; a save due by then runs first against the store. */
    method OnUpdate(edited: Doc, now: int, store: NoteCollection, user: AuthUser)
      modifies this, store
      ensures State() == AfterEdit(old(State()), edited, now).0
      ensures Saved(old(store.docs), store.docs, AfterEdit(old(State()), edited, now).1, user, now)
    {
      Tick(now, store, user);
      isLocalUpdate := true;
      content := edited;
      saveTimer := Scheduled(SaveRequest(noteIdRef, edited), now + SaveDelay);
    }

    /** The editor gains or loses focus. */
    method SetFocused(f: bool)
      modifies this
      ensures State() == old(State()).(focused := f)
    {
      focused := f;
    }

    /** The first effect, run when the note prop's id changes. */
    method NoteSwitched(noteId: string, noteContent: Doc)
      modifies this
      ensures State() == AfterSwitch(old(State()), noteId, noteContent)
    {
      if noteId != noteIdRef {
        noteIdRef := noteId;
        isLocalUpdate := false;
        content := noteContent;
      }
    }

    /** The second effect, run when the note prop's content or timestamp changes. */
    method RemoteSync(noteId: string, noteContent: Doc)
      modifies this
      ensures State() == AfterSync(old(State()), noteId, noteContent)
    {
      if noteId == noteIdRef && !focused && !isLocalUpdate {
        content := noteContent;
      }
      isLocalUpdate := false;
    }

    /** The clock reaches `now`: a due save runs against the store and its outcome is swallowed. */
    method Tick(now: int, store: NoteCollection, user: AuthUser)
      modifies this, store
      ensures saveTimer == Fire(old(saveTimer), now).0
      ensures Saved(old(store.docs), store.docs, Fire(old(saveTimer), now).1, user, now)
      ensures noteIdRef == old(noteIdRef) && isLocalUpdate == old(isLocalUpdate)
      ensures content == old(content) && focused == old(focused)
    {
      if saveTimer.Scheduled? && saveTimer.due <= now {
        var request := saveTimer.args;
        saveTimer := Idle;
        SaveContent(store, request, user, now);
      }
    }
  }
}
