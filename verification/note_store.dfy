/**
 * The notes collection as both clients see it (Electron lib/firestore.ts,
 * React-Native lib/firestore.ts): writes become updates of a map from
 * document id to note, and a subscription delivers the notes a query
 * matches, sorted pinned first and then most recently updated first.
 */
module NoteStore {
  import opened Wrappers
  import opened Text
  import opened Content
  import opened Notes
  import opened Sorting

  /** A note as a snapshot delivers it: its document id and its data. */
  datatype Listed = Listed(id: string, note: Note)

  /**
   * The three queries: the desktop client's notes of one owner, the mobile
   * superadmin's every live note, and the mobile user's notes assigned to
   * one (already lowercased) email.
   */
  datatype NoteQuery = OwnedBy(uid: string) | AllLive | AssignedTo(email: string)

  /** The `where` clauses of a query; `array-contains` on a missing list matches nothing. */
  predicate Matches(q: NoteQuery, n: Note) {
    !n.isDeleted &&
    match q
    case OwnedBy(uid) => n.userId == uid
    case AllLive => true
    case AssignedTo(email) => n.assignedTo.Some? && email in n.assignedTo.value
  }

  /** The desktop subscription's query for one user id. */
  function DesktopQuery(userId: string): (q: NoteQuery)
    ensures forall n :: Matches(q, n) <==> n.userId == userId && !n.isDeleted
  {
    OwnedBy(userId)
  }

  /** The mobile subscription's query: every live note for a superadmin, else the ones assigned to the lowercased email. */
  function MobileQuery(userEmail: string, isSuperAdmin: bool): (q: NoteQuery)
    ensures isSuperAdmin ==> forall n :: Matches(q, n) <==> !n.isDeleted
    ensures !isSuperAdmin ==> forall n :: Matches(q, n) <==>
              !n.isDeleted && n.assignedTo.Some? && ToLower(userEmail) in n.assignedTo.value
  {
    if isSuperAdmin then AllLive else AssignedTo(ToLower(userEmail))
  }

  /** A soft-deleted note matches no query. */
  lemma DeletedMatchesNothing(q: NoteQuery, n: Note, user: AuthUser, now: int)
    ensures !Matches(q, WithDeleted(n, user, now))
  {
  }

  /** A note just created matches its creator's desktop query and the mobile superadmin query. */
  lemma NewNoteVisible(p: Platform, user: AuthUser, now: int)
    ensures Matches(DesktopQuery(user.uid), NewNote(p, user, now))
    ensures Matches(MobileQuery(user.email.GetOr(""), true), NewNote(p, user, now))
  {
  }

  /** A missing or unreadable `updatedAt` counts as 0. */
  function Time(n: Note): int {
    n.updatedAt.GetOr(0)
  }

  /** The subscription's comparator: negative when `a` goes first. */
  function NoteCompare(a: Listed, b: Listed): int {
    if a.note.isPinned != b.note.isPinned then (if a.note.isPinned then -1 else 1)
    else Time(b.note) - Time(a.note)
  }

  /** The order the comparator describes: pinned before unpinned, then newer before older. */
  predicate InOrder(a: Note, b: Note) {
    (a.isPinned && !b.isPinned) || (a.isPinned == b.isPinned && Time(a) >= Time(b))
  }

  /** The comparator puts `a` first exactly when `InOrder` holds, and it is consistent. */
  lemma CompareIsOrder()
    ensures forall a, b :: NoteCompare(a, b) <= 0 <==> InOrder(a.note, b.note)
    ensures ConsistentComparator(NoteCompare)
  {
  }

  /** The subscription's order. */
  ghost predicate Sorted(s: seq<Listed>) {
    SortedBy(s, NoteCompare)
  }

  /** In a sorted list every pinned note comes before every unpinned one. */
  lemma SortedPinnedFirst(s: seq<Listed>, i: int, j: int)
    requires Sorted(s)
    requires 0 <= i < |s| && 0 <= j < |s| && s[i].note.isPinned && !s[j].note.isPinned
    ensures i < j
  {
    assert NoteCompare(s[j], s[i]) == 1;
  }

  /** In a sorted list, among notes with the same pin state the update times do not increase. */
  lemma SortedNewestFirst(s: seq<Listed>, i: int, j: int)
    requires Sorted(s)
    requires 0 <= i < j < |s| && s[i].note.isPinned == s[j].note.isPinned
    ensures s[i].note.updatedAt.GetOr(0) >= s[j].note.updatedAt.GetOr(0)
  {
    assert NoteCompare(s[i], s[j]) <= 0;
  }

  /**
   * A snapshot of `docs` for query `q`: each matching note exactly once,
   * under its own id, and nothing else.
   */
  ghost predicate IsSnapshot(docs: map<string, Note>, q: NoteQuery, s: seq<Listed>) {
    forall x :: multiset(s)[x] == if x.id in docs && docs[x.id] == x.note && Matches(q, x.note) then 1 else 0
  }

  /** Reordering a snapshot leaves it a snapshot. */
  lemma SnapshotPermuted(docs: map<string, Note>, q: NoteQuery, s: seq<Listed>, t: seq<Listed>)
    requires IsSnapshot(docs, q, s) && multiset(s) == multiset(t)
    ensures IsSnapshot(docs, q, t)
  {
  }

  /** A listed note's id never appears twice in a snapshot. */
  lemma SnapshotIdsDistinct(docs: map<string, Note>, q: NoteQuery, s: seq<Listed>, i: int, j: int)
    requires IsSnapshot(docs, q, s)
    requires 0 <= i < j < |s|
    ensures s[i].id != s[j].id
  {
    assert s == s[..j] + [s[j]] + s[j + 1..];
    assert multiset(s)[s[j]] == multiset(s[..j])[s[j]] + 1 + multiset(s[j + 1..])[s[j]];
    assert s[i] in s[..j];
    assert multiset(s)[s[i]] == 1;
  }

  /** The notes collection: document id to stored note. */
  class NoteCollection {
    var docs: map<string, Note>

    /** Every stored note's title and preview are derived from its content. */
    predicate Valid()
      reads this
    {
      forall id :: id in docs ==> Consistent(docs[id])
    }

    constructor ()
      ensures docs == map[] && Valid()
    {
      docs := map[];
    }

    /** `createNote`: stores a new note under the fresh id the store hands out and returns that id. */
    method CreateNote(p: Platform, user: AuthUser, id: string, now: int) returns (r: string)
      requires id !in docs
      modifies this
      ensures r == id && docs == old(docs)[id := NewNote(p, user, now)]
      ensures old(Valid()) ==> Valid()
    {
      docs := docs[id := NewNote(p, user, now)];
      r := id;
    }

    /** `updateNoteContent`; updating a missing document fails and changes nothing. */
    method UpdateNoteContent(id: string, content: Doc, user: AuthUser, now: int) returns (ok: bool)
      modifies this
      ensures ok <==> id in old(docs)
      ensures ok ==> docs == old(docs)[id := WithContent(old(docs)[id], content, user, now)]
      ensures !ok ==> docs == old(docs)
      ensures old(Valid()) ==> Valid()
    {
      ok := id in docs;
      if ok {
        docs := docs[id := WithContent(docs[id], content, user, now)];
      }
    }

    /** `deleteNote`: the note stays stored, marked deleted. */
    method DeleteNote(id: string, user: AuthUser, now: int) returns (ok: bool)
      modifies this
      ensures ok <==> id in old(docs)
      ensures ok ==> docs == old(docs)[id := WithDeleted(old(docs)[id], user, now)]
      ensures !ok ==> docs == old(docs)
      ensures docs.Keys == old(docs.Keys)
      ensures old(Valid()) ==> Valid()
    {
      ok := id in docs;
      if ok {
        docs := docs[id := WithDeleted(docs[id], user, now)];
      }
    }

    /** `togglePinNote(id, isPinned)`: writes `!isPinned`, whatever is stored. */
    method TogglePinNote(id: string, isPinned: bool, user: AuthUser, now: int) returns (ok: bool)
      modifies this
      ensures ok <==> id in old(docs)
      ensures ok ==> docs == old(docs)[id := WithPin(old(docs)[id], isPinned, user, now)]
      ensures !ok ==> docs == old(docs)
      ensures old(Valid()) ==> Valid()
    {
      ok := id in docs;
      if ok {
        docs := docs[id := WithPin(docs[id], isPinned, user, now)];
      }
    }

    /** `assignNoteToUsers` (mobile only). */
    method AssignNoteToUsers(id: string, userEmails: seq<string>) returns (ok: bool)
      modifies this
      ensures ok <==> id in old(docs)
      ensures ok ==> docs == old(docs)[id := WithAssigned(old(docs)[id], userEmails)]
      ensures !ok ==> docs == old(docs)
      ensures old(Valid()) ==> Valid()
    {
      ok := id in docs;
      if ok {
        docs := docs[id := WithAssigned(docs[id], userEmails)];
      }
    }

    /**
     * One delivery of `subscribeToNotes`: the documents the query matches,
     * each once under its id, sorted by the comparator.
     */
    method Subscribe(q: NoteQuery) returns (notes: seq<Listed>)
      ensures IsSnapshot(docs, q, notes)
      ensures Sorted(notes)
    {
      var keys := docs.Keys;
      var found: seq<Listed> := [];
      while keys != {}
        invariant keys <= docs.Keys
        invariant forall x :: multiset(found)[x] ==
                    if x.id in docs && x.id !in keys && docs[x.id] == x.note && Matches(q, x.note) then 1 else 0
        decreases keys
      {
        var k :| k in keys;
        if Matches(q, docs[k]) {
          found := found + [Listed(k, docs[k])];
        }
        keys := keys - {k};
      }
      var a := new Listed[|found|](i requires 0 <= i < |found| => found[i]);
      assert a[..] == found;
      CompareIsOrder();
      Sort(a, NoteCompare);
      notes := a[..];
      SnapshotPermuted(docs, q, found, notes);
    }
  }
}
