/**
 * The allowlist of signed-in users and the authorization resolver
 * (lib/user-management.ts; the Electron and React-Native files define the
 * same six operations the same way). The `allowedUsers` collection is a
 * map from document id to document; the configured superadmin email is a
 * parameter.
 */
module Allowlist {
  import opened Wrappers
  import opened Text
  import opened Sorting

  datatype Role = Superadmin | Admin | User

  /** The answer of `checkUserAllowed`. */
  datatype Access = Access(allowed: bool, role: Role)

  /**
   * An `allowedUsers` document. Every field may be missing: a role update
   * on an email that has no document creates one holding the role only.
   */
  datatype AllowedUserDoc = AllowedUserDoc(email: Option<string>, role: Option<Role>, addedBy: Option<string>, addedAt: Option<int>)

  /** `email.toLowerCase().trim()`: the document id of an email. */
  function Normalize(email: string): string {
    Trim(ToLower(email))
  }

  /** A normalized email: no surrounding whitespace and no upper-case letter. */
  predicate IsKey(e: string) {
    IsTrimmed(e) && IsLower(e)
  }

  /** A document id is normalized; it is empty only for a blank email. */
  lemma NormalizeFacts(email: string)
    ensures IsKey(Normalize(email))
    ensures Normalize(email) == [] <==> AllWhitespace(email)
  {
    LowerTrim(ToLower(email));
    LowerKeepsWhitespace(email);
    assert AllWhitespace(ToLower(email)) <==> AllWhitespace(email);
  }

  /** Trimming a string without upper-case letters leaves none. */
  lemma LowerTrim(s: string)
    requires IsLower(s)
    ensures IsLower(Trim(s))
  {
    var r := Trim(s);
    TrimIsInfix(s);
    var i := |s| - |TrimStart(s)|;
    assert forall k :: 0 <= k < |r| ==> r[k] == s[i + k];
  }

  /** Normalizing a normalized email changes nothing. */
  lemma KeyIsNormal(e: string)
    requires IsKey(e)
    ensures Normalize(e) == e
  {
    LowerNoop(e);
    TrimNoop(e);
  }

  /** Normalizing twice is normalizing once. */
  lemma NormalizeIdempotent(email: string)
    ensures Normalize(Normalize(email)) == Normalize(email)
  {
    NormalizeFacts(email);
    KeyIsNormal(Normalize(email));
  }

  /** `isSuperAdmin`: case-insensitive equality with the configured email; no email is never the superadmin. */
  function IsSuperAdmin(email: Option<string>, superadmin: string): (r: bool)
    ensures r ==> email.Some?
  {
    email.Some? && ToLower(email.value) == ToLower(superadmin)
  }

  /**
   * `isSuperAdmin` holds exactly when an email is present and agrees with
   * the configured one letter by letter once both are lowercased: every
   * other email, and a missing one, is not the superadmin.
   */
  lemma SuperAdminIffSameLetters(email: Option<string>, superadmin: string)
    ensures IsSuperAdmin(email, superadmin) <==>
              email.Some? && |email.value| == |superadmin|
              && forall i :: 0 <= i < |superadmin| ==> LowerChar(email.value[i]) == LowerChar(superadmin[i])
  {
    if email.Some? && |email.value| == |superadmin|
       && forall i :: 0 <= i < |superadmin| ==> LowerChar(email.value[i]) == LowerChar(superadmin[i])
    {
      assert forall i :: 0 <= i < |superadmin| ==> ToLower(email.value)[i] == ToLower(superadmin)[i];
    }
    if IsSuperAdmin(email, superadmin) {
      assert |email.value| == |ToLower(email.value)| == |ToLower(superadmin)| == |superadmin|;
      forall i | 0 <= i < |superadmin|
        ensures LowerChar(email.value[i]) == LowerChar(superadmin[i])
      {
        assert ToLower(email.value)[i] == ToLower(superadmin)[i];
      }
    }
  }

  /** Case does not matter to `isSuperAdmin`, on either side. */
  lemma SuperAdminIgnoresCase(email: string, superadmin: string)
    ensures IsSuperAdmin(Some(email), superadmin) == IsSuperAdmin(Some(ToLower(email)), superadmin)
    ensures IsSuperAdmin(Some(email), superadmin) == IsSuperAdmin(Some(email), ToLower(superadmin))
    ensures IsSuperAdmin(Some(superadmin), superadmin)
  {
    ToLowerIdempotent(email);
    ToLowerIdempotent(superadmin);
  }

  /** Every document's email, when it has one, is its id: what every write of the clients keeps. */
  predicate WellKeyed(users: map<string, AllowedUserDoc>) {
    forall k :: k in users && users[k].email.Some? ==> users[k].email.value == k
  }

  /** The ids of the documents that `where('email', '==', e)` selects. */
  ghost function QueryByEmail(users: map<string, AllowedUserDoc>, e: string): set<string> {
    set k | k in users && users[k].email == Some(e)
  }

  /** In a well-keyed allowlist the email query selects at most the document whose id is that email. */
  lemma QueryIsLookup(users: map<string, AllowedUserDoc>, e: string)
    requires WellKeyed(users)
    ensures QueryByEmail(users, e) == if e in users && users[e].email == Some(e) then {e} else {}
  {
  }

  /**
   * `checkUserAllowed`: the superadmin is allowed as superadmin whatever the
   * table holds; another email is allowed iff a document's email equals
   * the lowercased input (not trimmed), with that document's role or
   * `'user'` when unset; a refusal carries `'user'`.
   */
  function CheckUserAllowed(users: map<string, AllowedUserDoc>, email: string, superadmin: string): (r: Access)
    ensures IsSuperAdmin(Some(email), superadmin) ==> r == Access(true, Superadmin)
    ensures !IsSuperAdmin(Some(email), superadmin) && WellKeyed(users) ==>
              (r.allowed <==> QueryByEmail(users, ToLower(email)) != {})
    ensures !IsSuperAdmin(Some(email), superadmin) && r.allowed ==>
              ToLower(email) in users && users[ToLower(email)].email == Some(ToLower(email))
              && r.role == users[ToLower(email)].role.GetOr(User)
    ensures !r.allowed ==> r.role == User
  {
    if IsSuperAdmin(Some(email), superadmin) then Access(true, Superadmin)
    else
      var key := ToLower(email);
      if key in users && users[key].email == Some(key) then
        assert key in QueryByEmail(users, key);
        Access(true, users[key].role.GetOr(User))
      else
        assert key !in QueryByEmail(users, key);
        Access(false, User)
  }

  /** `addAllowedUser`: overwrites (set, not merge) the document of the normalized email; nothing else changes. */
  function AddEntry(users: map<string, AllowedUserDoc>, email: string, role: Role, addedBy: string, now: int): (r: map<string, AllowedUserDoc>)
    ensures Normalize(email) in r
    ensures r[Normalize(email)] == AllowedUserDoc(Some(Normalize(email)), Some(role), Some(addedBy), Some(now))
    ensures forall k :: k != Normalize(email) ==> (k in r <==> k in users) && (k in users ==> r[k] == users[k])
    ensures WellKeyed(users) ==> WellKeyed(r)
  {
    var key := Normalize(email);
    users[key := AllowedUserDoc(Some(key), Some(role), Some(addedBy), Some(now))]
  }

  /** `removeAllowedUser`: deletes the document of the normalized email; every other one stays. */
  function RemoveEntry(users: map<string, AllowedUserDoc>, email: string): (r: map<string, AllowedUserDoc>)
    ensures Normalize(email) !in r
    ensures forall k :: k != Normalize(email) ==> (k in r <==> k in users) && (k in users ==> r[k] == users[k])
    ensures WellKeyed(users) ==> WellKeyed(r)
  {
    users - {Normalize(email)}
  }

  /**
   * `updateUserRole`: merges the role into the document of the normalized
   * email. An existing document keeps its email, `addedBy` and `addedAt`;
   * without one, a role-only document appears, which no email query selects.
   */
  function UpdateRole(users: map<string, AllowedUserDoc>, email: string, role: Role): (r: map<string, AllowedUserDoc>)
    ensures Normalize(email) in r && r[Normalize(email)].role == Some(role)
    ensures Normalize(email) in users ==> r[Normalize(email)] == users[Normalize(email)].(role := Some(role))
    ensures Normalize(email) !in users ==> r[Normalize(email)] == AllowedUserDoc(None, Some(role), None, None)
    ensures forall k :: k != Normalize(email) ==> (k in r <==> k in users) && (k in users ==> r[k] == users[k])
    ensures WellKeyed(users) ==> WellKeyed(r)
  {
    var key := Normalize(email);
    if key in users then users[key := users[key].(role := Some(role))]
    else users[key := AllowedUserDoc(None, Some(role), None, None)]
  }

  /** After adding an email, signing in with any spelling whose lowercase is its id is allowed with the added role. */
  lemma AddThenCheck(users: map<string, AllowedUserDoc>, email: string, role: Role, addedBy: string, now: int, signIn: string, superadmin: string)
    requires ToLower(signIn) == Normalize(email)
    requires !IsSuperAdmin(Some(signIn), superadmin)
    ensures CheckUserAllowed(AddEntry(users, email, role, addedBy, now), signIn, superadmin) == Access(true, role)
  {
  }

  /** After removing a normalized email from a well-keyed allowlist, it is no longer allowed (unless it is the superadmin). */
  lemma RemoveThenCheck(users: map<string, AllowedUserDoc>, email: string, superadmin: string)
    requires WellKeyed(users) && IsKey(email)
    requires !IsSuperAdmin(Some(email), superadmin)
    ensures CheckUserAllowed(RemoveEntry(users, email), email, superadmin) == Access(false, User)
  {
    KeyIsNormal(email);
    LowerNoop(email);
  }

  /** A role update on a listed email changes the role the check answers, and nothing else about the entry. */
  lemma UpdateThenCheck(users: map<string, AllowedUserDoc>, email: string, role: Role, superadmin: string)
    requires IsKey(email) && email in users && users[email].email == Some(email)
    requires !IsSuperAdmin(Some(email), superadmin)
    ensures CheckUserAllowed(UpdateRole(users, email, role), email, superadmin) == Access(true, role)
  {
    KeyIsNormal(email);
    LowerNoop(email);
  }

  /** A role update on an email without a document does not let it in. */
  lemma UpdateMissingStaysOut(users: map<string, AllowedUserDoc>, email: string, role: Role, superadmin: string)
    requires WellKeyed(users) && IsKey(email) && email !in users
    requires !IsSuperAdmin(Some(email), superadmin)
    ensures !CheckUserAllowed(UpdateRole(users, email, role), email, superadmin).allowed
  {
    KeyIsNormal(email);
    LowerNoop(email);
  }

  /**
   * The lookup lowercases but does not trim: an email added with leading
   * whitespace is stored trimmed, so signing in with the spaced spelling
   * is refused.
   */
  lemma LookupDoesNotTrim(email: string, role: Role, addedBy: string, now: int, superadmin: string)
    requires email != [] && IsWhitespace(email[0])
    requires !IsSuperAdmin(Some(email), superadmin)
    ensures !CheckUserAllowed(AddEntry(map[], email, role, addedBy, now), email, superadmin).allowed
  {
    LowerKeepsWhitespace(email);
    assert IsWhitespace(ToLower(email)[0]);
    assert ToLower(email) != Normalize(email);
  }

  /** A listed document: its id and its data. */
  datatype Entry = Entry(id: string, doc: AllowedUserDoc)

  /** The listing's comparator, `a.email.localeCompare(b.email)`, as ordinal comparison. */
  function EmailCompare(a: Entry, b: Entry): int {
    StrCompare(a.doc.email.GetOr(""), b.doc.email.GetOr(""))
  }

  /** The email comparator is consistent. */
  lemma EmailCompareConsistent()
    ensures ConsistentComparator(EmailCompare)
  {
    forall x, y ensures EmailCompare(x, y) <= 0 || EmailCompare(y, x) <= 0 {
      StrCompareFlip(x.doc.email.GetOr(""), y.doc.email.GetOr(""));
    }
    forall x, y, z | EmailCompare(x, y) <= 0 && EmailCompare(y, z) <= 0 ensures EmailCompare(x, z) <= 0 {
      StrCompareTrans(x.doc.email.GetOr(""), y.doc.email.GetOr(""), z.doc.email.GetOr(""));
    }
  }

  /** In a listing sorted by email, emails ascend. */
  lemma ListingAscends(s: seq<Entry>, i: int, j: int)
    requires SortedBy(s, EmailCompare) && 0 <= i < j < |s|
    ensures StrCompare(s[i].doc.email.GetOr(""), s[j].doc.email.GetOr("")) <= 0
  {
  }

  /** The listing: every document exactly once, under its id. */
  ghost predicate IsListing(users: map<string, AllowedUserDoc>, s: seq<Entry>) {
    forall x :: multiset(s)[x] == if x.id in users && users[x.id] == x.doc then 1 else 0
  }

  /** The allowlist collection and the writes the user-management screens make. */
  class AllowList {
    var users: map<string, AllowedUserDoc>

    predicate Valid()
      reads this
    {
      WellKeyed(users)
    }

    constructor ()
      ensures users == map[] && Valid()
    {
      users := map[];
    }

    /** `checkUserAllowed` against the current documents. */
    method Check(email: string, superadmin: string) returns (r: Access)
      ensures r == CheckUserAllowed(users, email, superadmin)
    {
      r := CheckUserAllowed(users, email, superadmin);
    }

    /** `addAllowedUser`. */
    method Add(email: string, role: Role, addedBy: string, now: int)
      modifies this
      ensures users == AddEntry(old(users), email, role, addedBy, now)
      ensures old(Valid()) ==> Valid()
    {
      users := AddEntry(users, email, role, addedBy, now);
    }

    /** `removeAllowedUser`. */
    method Remove(email: string)
      modifies this
      ensures users == RemoveEntry(old(users), email)
      ensures old(Valid()) ==> Valid()
    {
      users := RemoveEntry(users, email);
    }

    /** `updateUserRole`. */
    method SetRole(email: string, role: Role)
      modifies this
      ensures users == UpdateRole(old(users), email, role)
      ensures old(Valid()) ==> Valid()
    {
      users := UpdateRole(users, email, role);
    }

    /**
     * One delivery of `subscribeToAllowedUsers`: every document once, sorted
     * by email. Every document must carry an email, which the comparator reads.
     */
    method Listing() returns (list: seq<Entry>)
      requires forall k :: k in users ==> users[k].email.Some?
      ensures IsListing(users, list)
      ensures SortedBy(list, EmailCompare)
    {
      var keys := users.Keys;
      var found: seq<Entry> := [];
      while keys != {}
        invariant keys <= users.Keys
        invariant forall x :: multiset(found)[x] ==
                    if x.id in users && x.id !in keys && users[x.id] == x.doc then 1 else 0
        decreases keys
      {
        var k :| k in keys;
        found := found + [Entry(k, users[k])];
        keys := keys - {k};
      }
      var a := new Entry[|found|](i requires 0 <= i < |found| => found[i]);
      assert a[..] == found;
      EmailCompareConsistent();
      Sort(a, EmailCompare);
      list := a[..];
    }
  }
}
