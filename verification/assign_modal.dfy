/**
 * The note-assignment modal of the mobile client
 * (React-Native components/NoteAssignModal.tsx). The selection is a
 * JavaScript `Set` of emails, which keeps insertion order: here a sequence
 * without repeats, with new members appended and removed members cut out.
 */
module AssignModal {
  import opened Wrappers
  import opened Text
  import opened Notes
  import opened NoteStore

  /** No email occurs twice. */
  predicate Distinct(s: seq<string>) {
    forall i, j :: 0 <= i < j < |s| ==> s[i] != s[j]
  }

  /** `new Set(s)`: the first occurrence of each member, in order. */
  function Dedup(s: seq<string>): (r: seq<string>)
    ensures Distinct(r)
    ensures forall x :: x in r <==> x in s
    ensures |r| <= |s|
  {
    if s == [] then []
    else
      var rest := Dedup(s[..|s| - 1]);
      if s[|s| - 1] in rest then rest else rest + [s[|s| - 1]]
  }

  /** The position of the first occurrence of `x` in `s`. */
  function FirstIndex(s: seq<string>, x: string): (r: nat)
    requires x in s
    ensures r < |s| && s[r] == x && x !in s[..r]
  {
    if s[0] == x then 0 else 1 + FirstIndex(s[1..], x)
  }

  /** Appending leaves the first occurrences of earlier members where they were. */
  lemma {:induction false} FirstIndexAppend(s: seq<string>, y: string, x: string)
    requires x in s
    ensures FirstIndex(s + [y], x) == FirstIndex(s, x)
  {
    if s[0] != x {
      assert (s + [y])[1..] == s[1..] + [y];
      FirstIndexAppend(s[1..], y, x);
    }
  }

  /** `new Set(s)` iterates its members in the order of their first occurrence in `s`. */
  lemma {:induction false} DedupKeepsFirstOrder(s: seq<string>)
    ensures forall i, j :: 0 <= i < j < |Dedup(s)| ==> FirstIndex(s, Dedup(s)[i]) < FirstIndex(s, Dedup(s)[j])
  {
    if s != [] {
      var init, last := s[..|s| - 1], s[|s| - 1];
      assert s == init + [last];
      DedupKeepsFirstOrder(init);
      var rest := Dedup(init);
      forall x | x in init ensures FirstIndex(s, x) == FirstIndex(init, x) {
        FirstIndexAppend(init, last, x);
      }
      if last !in rest {
        assert FirstIndex(s, last) == |s| - 1;
        forall i | 0 <= i < |rest| ensures FirstIndex(s, rest[i]) < |s| - 1 {
          assert rest[i] in init;
        }
      }
    }
  }

  /** `set.delete(x)`: every member but `x`, in order. */
  function Remove(s: seq<string>, x: string): (r: seq<string>)
    ensures forall y :: y in r <==> y in s && y != x
    ensures Distinct(s) ==> Distinct(r)
    ensures x !in s ==> r == s
  {
    if s == [] then []
    else
      var init, last := s[..|s| - 1], s[|s| - 1];
      assert s == init + [last];
      assert Distinct(s) ==> Distinct(init) && last !in init;
      var rest := Remove(init, x);
      if last == x then rest else rest + [last]
  }

  /** The selection when a note arrives: its assignees lowercased, each once; none when it has no list. */
  function InitialSelection(assignedTo: Option<seq<string>>): (r: seq<string>)
    ensures Distinct(r)
    ensures forall x :: x in r <==> x in LowerAll(assignedTo.GetOr([]))
  {
    Dedup(LowerAll(assignedTo.GetOr([])))
  }

  /** Tapping a user: flips that email's membership and no other. */
  function Toggle(selected: seq<string>, email: string): (r: seq<string>)
    ensures forall x :: x in r <==> (x == email) != (x in selected)
    ensures Distinct(selected) ==> Distinct(r)
  {
    if email in selected then Remove(selected, email) else selected + [email]
  }

  /**
   * Tapping the same user twice restores the selection's members. When the
   * email was not selected, the sequence itself comes back; when it was,
   * it returns at the end, because a `Set` appends what it adds.
   */
  lemma ToggleTwice(selected: seq<string>, email: string)
    requires Distinct(selected)
    ensures forall x :: x in Toggle(Toggle(selected, email), email) <==> x in selected
    ensures |Toggle(Toggle(selected, email), email)| == |selected|
    ensures email !in selected ==> Toggle(Toggle(selected, email), email) == selected
  {
    if email in selected {
      var removed := Remove(selected, email);
      DistinctLength(removed, selected, email);
    } else {
      var added := selected + [email];
      assert added[..|added| - 1] == selected;
    }
  }

  /** Removing one present member of a sequence without repeats shortens it by one. */
  lemma {:induction false} DistinctLength(r: seq<string>, s: seq<string>, x: string)
    requires Distinct(s) && x in s && r == Remove(s, x)
    ensures |r| == |s| - 1
    decreases |s|
  {
    var init := s[..|s| - 1];
    assert s == init + [s[|s| - 1]];
    if s[|s| - 1] == x {
      assert x !in init;
      assert Remove(init, x) == init;
    } else {
      assert x in init;
      DistinctLength(Remove(init, x), init, x);
    }
  }

  /** The members of a sequence, as a set. */
  function Members(s: seq<string>): set<string> {
    set x | x in s
  }

  /** The displayed count, `selected.size`, is the number of selected emails. */
  lemma {:induction false} CountIsSize(s: seq<string>)
    requires Distinct(s)
    ensures |Members(s)| == |s|
  {
    if s != [] {
      var init := s[..|s| - 1];
      assert s == init + [s[|s| - 1]];
      CountIsSize(init);
      assert Members(s) == Members(init) + {s[|s| - 1]};
      assert s[|s| - 1] !in Members(init);
    }
  }

  /** Every lowercased email is its own lowercase. */
  lemma LoweredStaysLowered(emails: seq<string>, x: string)
    requires x in LowerAll(emails)
    ensures ToLower(x) == x
  {
    var k :| 0 <= k < |LowerAll(emails)| && LowerAll(emails)[k] == x;
    ToLowerIdempotent(emails[k]);
  }

  /**
   * Opening the modal on a note and saving without a tap stores the same
   * assignees, lowercased, each once.
   */
  lemma SaveUnchangedKeepsAssignees(n: Note)
    ensures var stored := WithAssigned(n, InitialSelection(n.assignedTo)).assignedTo.value;
            Distinct(stored) && forall x :: x in stored <==> x in LowerAll(n.assignedTo.GetOr([]))
  {
    var sel := InitialSelection(n.assignedTo);
    forall i | 0 <= i < |sel| ensures LowerAll(sel)[i] == sel[i] {
      assert sel[i] in sel;
      LoweredStaysLowered(n.assignedTo.GetOr([]), sel[i]);
    }
    assert LowerAll(sel) == sel;
  }

  /** The modal's state: the note it was opened on, the selection and the `saving` flag. */
  class NoteAssignModal {
    var note: Option<Listed>
    var selected: seq<string>
    var saving: bool

    predicate Valid()
      reads this
    {
      Distinct(selected) && !saving
    }

    constructor ()
      ensures note == None && selected == [] && !saving && Valid()
    {
      note := None;
      selected := [];
      saving := false;
    }

    /** Nothing is shown without a note. */
    predicate Renders()
      reads this
    {
      note.Some?
    }

    /** The note prop changes: a note resets the selection to its assignees; no note leaves it. */
    method NoteChanged(n: Option<Listed>)
      requires Valid()
      modifies `note, `selected
      ensures note == n && Valid()
      ensures n.Some? ==> selected == InitialSelection(n.value.note.assignedTo)
      ensures n.None? ==> selected == old(selected)
    {
      note := n;
      if n.Some? {
        selected := InitialSelection(n.value.note.assignedTo);
      }
    }

    /** A tap on a listed user's email. */
    method Tap(email: string)
      requires Valid()
      modifies `selected
      ensures selected == Toggle(old(selected), email) && Valid()
    {
      if email in selected {
        selected := Remove(selected, email);
      } else {
        selected := selected + [email];
      }
    }

    /**
     * The save button: writes the selection as the note's assignees and
     * closes on success; a failed write leaves the modal open. `saving`
     * is false afterwards either way.
     */
    method Save(store: NoteCollection) returns (closed: bool)
      requires Valid() && note.Some?
      modifies `saving, store
      ensures Valid()
      ensures closed <==> note.value.id in old(store.docs)
      ensures closed ==> store.docs == old(store.docs)[note.value.id := WithAssigned(old(store.docs)[note.value.id], selected)]
      ensures !closed ==> store.docs == old(store.docs)
    {
      saving := true;
      closed := store.AssignNoteToUsers(note.value.id, selected);
      saving := false;
    }
  }
}
