/**
 * A stored note and the field updates the two clients write
 * (Electron lib/firestore.ts and React-Native lib/firestore.ts).
 * Server timestamps are caller-supplied integers (milliseconds).
 */
module Notes {
  import opened Wrappers
  import opened Text
  import opened Content

  /** The signed-in user; `toNoteUserInfo` copies exactly these four fields. */
  datatype AuthUser = AuthUser(uid: string, displayName: Option<string>, email: Option<string>, photoURL: Option<string>)

  /** The desktop client writes notes without `assignedTo`; the mobile client adds an empty list. */
  datatype Platform = Desktop | Mobile

  /**
   * A note document. `updatedAt` is `None` when the stored document has no
   * readable timestamp; `assignedTo` is `None` when the field is missing.
   */
  datatype Note = Note(
    title: string,
    content: Doc,
    plainTextPreview: string,
    createdAt: int,
    updatedAt: Option<int>,
    isPinned: bool,
    isDeleted: bool,
    userId: string,
    tags: seq<string>,
    createdBy: AuthUser,
    lastEditedBy: AuthUser,
    assignedTo: Option<seq<string>>)

  /** The content of a new note: one empty paragraph. */
  const DefaultContent: Doc := Doc("doc", Present([Node("paragraph", None, Absent)]))

  /** Title and preview are the ones derived from the content. */
  predicate Consistent(n: Note) {
    n.title == ExtractTitle(n.content) && n.plainTextPreview == ExtractPlainTextPreview(n.content)
  }

  /** The fields no update writes after creation. */
  predicate SameOrigin(a: Note, b: Note) {
    a.createdAt == b.createdAt && a.userId == b.userId && a.tags == b.tags && a.createdBy == b.createdBy
  }

  /** The default content's title is `'Untitled'` and its preview is empty. */
  lemma DefaultContentDerived()
    ensures ExtractTitle(DefaultContent) == Untitled
    ensures ExtractPlainTextPreview(DefaultContent) == ""
  {
    var blocks := DefaultContent.content.nodes;
    ParagraphText("");
    assert ExtractText(blocks[0]) == "";
    assert AllWhitespace("");
    assert Texts(blocks) == [""];
    assert Join([""], " ") == "";
  }

  /**
   * `createNote`: an unpinned, live, untitled note owned by and attributed to
   * its creator, with no tags (and, on mobile, nobody assigned). The literal
   * title and preview are exactly what the default content derives.
   */
  function NewNote(p: Platform, user: AuthUser, now: int): (r: Note)
    ensures Consistent(r) && r.content == DefaultContent
    ensures r.title == Untitled && r.plainTextPreview == ""
    ensures !r.isPinned && !r.isDeleted
    ensures r.userId == user.uid && r.tags == []
    ensures r.createdBy == user && r.lastEditedBy == user
    ensures r.createdAt == now && r.updatedAt == Some(now)
    ensures r.assignedTo == (if p == Mobile then Some([]) else None)
  {
    DefaultContentDerived();
    Note(Untitled, DefaultContent, "", now, Some(now), false, false, user.uid, [],
         user, user, if p == Mobile then Some([]) else None)
  }

  /**
   * `updateNoteContent`: the new content with its derived title and preview,
   * a new timestamp and editor; pin, deletion, assignment and origin stay.
   */
  function WithContent(n: Note, content: Doc, user: AuthUser, now: int): (r: Note)
    ensures Consistent(r) && r.content == content
    ensures SameOrigin(n, r)
    ensures r.isPinned == n.isPinned && r.isDeleted == n.isDeleted && r.assignedTo == n.assignedTo
    ensures r.updatedAt == Some(now) && r.lastEditedBy == user
  {
    n.(content := content, title := ExtractTitle(content),
       plainTextPreview := ExtractPlainTextPreview(content),
       updatedAt := Some(now), lastEditedBy := user)
  }

  /** `deleteNote`: a soft delete that sets the flag, the timestamp and the editor only. */
  function WithDeleted(n: Note, user: AuthUser, now: int): (r: Note)
    ensures r.isDeleted
    ensures r.(isDeleted := n.isDeleted, updatedAt := n.updatedAt, lastEditedBy := n.lastEditedBy) == n
  {
    n.(isDeleted := true, updatedAt := Some(now), lastEditedBy := user)
  }

  /** `togglePinNote`: writes the negation of the flag the caller passed, with timestamp and editor. */
  function WithPin(n: Note, isPinned: bool, user: AuthUser, now: int): (r: Note)
    ensures r.isPinned != isPinned
    ensures r.(isPinned := n.isPinned, updatedAt := n.updatedAt, lastEditedBy := n.lastEditedBy) == n
  {
    n.(isPinned := !isPinned, updatedAt := Some(now), lastEditedBy := user)
  }

  /** `userEmails.map((email) => email.toLowerCase())`. */
  function LowerAll(emails: seq<string>): (r: seq<string>)
    ensures |r| == |emails|
    ensures forall i {:trigger r[i]} :: 0 <= i < |emails| ==> r[i] == ToLower(emails[i])
  {
    if emails == [] then [] else [ToLower(emails[0])] + LowerAll(emails[1..])
  }

  /** `assignNoteToUsers`: replaces the assignment with the lowercased emails and touches nothing else, not even the timestamp. */
  function WithAssigned(n: Note, emails: seq<string>): (r: Note)
    ensures r.assignedTo.Some? && |r.assignedTo.value| == |emails|
    ensures forall i {:trigger r.assignedTo.value[i]} :: 0 <= i < |emails| ==> r.assignedTo.value[i] == ToLower(emails[i])
    ensures r.(assignedTo := n.assignedTo) == n
  {
    n.(assignedTo := Some(LowerAll(emails)))
  }

  /** Every write keeps the title and preview derived from the content. */
  lemma UpdatesKeepConsistent(n: Note, content: Doc, flag: bool, emails: seq<string>, user: AuthUser, now: int)
    requires Consistent(n)
    ensures Consistent(WithContent(n, content, user, now))
    ensures Consistent(WithDeleted(n, user, now))
    ensures Consistent(WithPin(n, flag, user, now))
    ensures Consistent(WithAssigned(n, emails))
  {
  }

  /** Toggling the pin twice, each time with the then-current flag, restores it. */
  lemma PinTwice(n: Note, u1: AuthUser, t1: int, u2: AuthUser, t2: int)
    ensures var once := WithPin(n, n.isPinned, u1, t1);
            var twice := WithPin(once, once.isPinned, u2, t2);
            once.isPinned != n.isPinned
            && twice.(updatedAt := n.updatedAt, lastEditedBy := n.lastEditedBy) == n
  {
  }

  /** Lowercasing the assigned emails twice changes nothing more. */
  lemma {:induction false} AssignIdempotent(n: Note, emails: seq<string>)
    ensures WithAssigned(WithAssigned(n, emails), WithAssigned(n, emails).assignedTo.value) == WithAssigned(n, emails)
  {
    var lowered := LowerAll(emails);
    forall i | 0 <= i < |lowered| ensures LowerAll(lowered)[i] == lowered[i] {
      ToLowerIdempotent(emails[i]);
    }
    assert LowerAll(lowered) == lowered;
  }
}
