/**
 * The note-list search of both clients: the desktop list filters by the
 * query as typed (Electron components/NoteList.tsx), the mobile screen by
 * the query trimmed (React-Native screens/MainScreen.tsx). Matching is a
 * lowercased substring test on the title and on the preview.
 */
module Search {
  import opened Text
  import opened Notes
  import opened NoteStore

  /** A note matches a lowercased query when its lowercased title or preview contains it. */
  predicate NoteMatches(n: Note, q: string) {
    Contains(ToLower(n.title), q) || Contains(ToLower(n.plainTextPreview), q)
  }

  /** `notes.filter(...)` with the matching test for `q`. */
  function Filter(notes: seq<Listed>, q: string): (r: seq<Listed>)
    ensures |r| <= |notes|
    ensures forall x :: x in r <==> x in notes && NoteMatches(x.note, q)
  {
    if notes == [] then []
    else
      var init, last := notes[..|notes| - 1], notes[|notes| - 1];
      assert notes == init + [last];
      Filter(init, q) + if NoteMatches(last.note, q) then [last] else []
  }

  /** The positions of the matching notes, in increasing order. */
  function KeptIndices(notes: seq<Listed>, q: string): (r: seq<int>)
    ensures forall k :: 0 <= k < |r| ==> 0 <= r[k] < |notes|
  {
    if notes == [] then []
    else KeptIndices(notes[..|notes| - 1], q) + if NoteMatches(notes[|notes| - 1].note, q) then [|notes| - 1] else []
  }

  /** `r` lists the elements of `s` at the strictly increasing positions `idx`. */
  ghost predicate SublistAt<T>(r: seq<T>, s: seq<T>, idx: seq<int>) {
    && |idx| == |r|
    && (forall k :: 0 <= k < |idx| ==> 0 <= idx[k] < |s| && r[k] == s[idx[k]])
    && (forall k, l :: 0 <= k < l < |idx| ==> idx[k] < idx[l])
  }

  /**
   * The filter keeps exactly the matching notes, in their original order:
   * the result lists the notes at the increasing positions of all matches.
   */
  lemma {:induction false} FilterKeepsOrder(notes: seq<Listed>, q: string)
    ensures SublistAt(Filter(notes, q), notes, KeptIndices(notes, q))
  {
    if notes != [] {
      var init, last := notes[..|notes| - 1], notes[|notes| - 1];
      assert notes == init + [last];
      FilterKeepsOrder(init, q);
      if NoteMatches(last.note, q) {
        SublistTake(Filter(init, q), init, KeptIndices(init, q), last);
      } else {
        SublistSkip(Filter(init, q), init, KeptIndices(init, q), last);
      }
    }
  }

  /** Every matching position is kept. */
  lemma {:induction false} KeptIndicesComplete(notes: seq<Listed>, q: string, i: int)
    requires 0 <= i < |notes| && NoteMatches(notes[i].note, q)
    ensures i in KeptIndices(notes, q)
  {
    var init := notes[..|notes| - 1];
    if i < |init| {
      assert init[i] == notes[i];
      KeptIndicesComplete(init, q, i);
    }
  }

  /** A sublist extends by an element appended to both. */
  lemma SublistTake<T>(r: seq<T>, s: seq<T>, idx: seq<int>, x: T)
    requires SublistAt(r, s, idx)
    ensures SublistAt(r + [x], s + [x], idx + [|s|])
  {
  }

  /** A sublist stays one when the list grows. */
  lemma SublistSkip<T>(r: seq<T>, s: seq<T>, idx: seq<int>, x: T)
    requires SublistAt(r, s, idx)
    ensures SublistAt(r, s + [x], idx)
  {
  }

  /** The desktop list: an empty query shows every note; otherwise the query, lowercased but not trimmed. */
  function DesktopFilter(notes: seq<Listed>, searchQuery: string): (r: seq<Listed>)
    ensures searchQuery == [] ==> r == notes
    ensures searchQuery != [] ==> forall x :: x in r <==> x in notes && NoteMatches(x.note, ToLower(searchQuery))
  {
    if searchQuery == [] then notes else Filter(notes, ToLower(searchQuery))
  }

  /** The mobile screen: the query trimmed and lowercased; a blank query shows every note. */
  function MobileFilter(notes: seq<Listed>, searchQuery: string): (r: seq<Listed>)
    ensures AllWhitespace(searchQuery) ==> r == notes
    ensures !AllWhitespace(searchQuery) ==>
              forall x :: x in r <==> x in notes && NoteMatches(x.note, ToLower(Trim(searchQuery)))
  {
    var normalizedQuery := ToLower(Trim(searchQuery));
    if normalizedQuery == [] then notes else Filter(notes, normalizedQuery)
  }

  /** The mobile search is the desktop search applied to the trimmed query. */
  lemma MobileIsDesktopOnTrimmed(notes: seq<Listed>, searchQuery: string)
    ensures MobileFilter(notes, searchQuery) == DesktopFilter(notes, Trim(searchQuery))
  {
  }

  /** Letter case in the query does not matter on either client. */
  lemma QueryCaseIgnored(notes: seq<Listed>, searchQuery: string)
    ensures DesktopFilter(notes, ToLower(searchQuery)) == DesktopFilter(notes, searchQuery)
    ensures MobileFilter(notes, ToLower(searchQuery)) == MobileFilter(notes, searchQuery)
  {
    ToLowerIdempotent(searchQuery);
    LowerKeepsWhitespace(searchQuery);
    TrimLowerCommute(searchQuery);
    ToLowerIdempotent(Trim(searchQuery));
  }

  /** What the desktop list shows: placeholders while loading, a message when nothing is left, else the notes. */
  datatype ListView = Skeleton | Message(text: string) | Items(notes: seq<Listed>)

  function DesktopListView(loading: bool, notes: seq<Listed>, searchQuery: string): (r: ListView)
    ensures loading ==> r == Skeleton
    ensures !loading && DesktopFilter(notes, searchQuery) == [] ==>
              r == Message(if searchQuery != [] then "No notes match your search" else "No notes yet. Create one!")
    ensures r.Items? ==> r.notes == DesktopFilter(notes, searchQuery) && r.notes != []
  {
    var filtered := DesktopFilter(notes, searchQuery);
    if loading then Skeleton
    else if filtered == [] then Message(if searchQuery != [] then "No notes match your search" else "No notes yet. Create one!")
    else Items(filtered)
  }

  /** The "no notes" message appears only for an empty list, never for a search that filtered everything out. */
  lemma NoNotesMessageMeansEmpty(notes: seq<Listed>, searchQuery: string)
    requires DesktopListView(false, notes, searchQuery) == Message("No notes yet. Create one!")
    ensures notes == []
  {
  }
}
