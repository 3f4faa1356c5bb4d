/**
 * The add-user form and the role gating of the user-management screens
 * (Electron components/UserManagement.tsx, React-Native
 * components/UserManagementModal.tsx). Both run the same `handleAdd`
 * sequence; they differ only in the punctuation of two error messages.
 */
module UserForm {
  import opened Wrappers
  import opened Text
  import opened Notes
  import opened Allowlist

  /** A non-empty run of characters that are neither whitespace nor '@': the regex's `[^\s@]+`. */
  predicate Segment(t: string) {
    |t| > 0 && forall m :: 0 <= m < |t| ==> !IsWhitespace(t[m]) && t[m] != '@'
  }

  /** `s` reads segment '@' segment '.' segment, with its '@' at `at` and that '.' at `dot`. */
  predicate SplitsAt(s: string, at: int, dot: int) {
    && 0 < at && at + 1 < dot && dot + 1 < |s|
    && s[at] == '@' && s[dot] == '.'
    && Segment(s[..at]) && Segment(s[at + 1..dot]) && Segment(s[dot + 1..])
  }

  /** `s` is in the language of `^[^\s@]+@[^\s@]+\.[^\s@]+$`. */
  ghost predicate MatchesEmailPattern(s: string) {
    exists at, dot :: SplitsAt(s, at, dot)
  }

  /** The index of the first `c` in `s`, or `|s|` when there is none. */
  function IndexOf(s: string, c: char): (r: nat)
    ensures r <= |s|
    ensures r < |s| ==> s[r] == c
    ensures forall m :: 0 <= m < r ==> s[m] != c
  {
    if s == [] then 0
    else if s[0] == c then 0
    else 1 + IndexOf(s[1..], c)
  }

  /**
   * The pattern test as a scan: no whitespace, exactly one '@' with
   * something before it, and a '.' after it that has a character on each
   * side.
   */
  function LooksLikeEmail(s: string): bool {
    var at := IndexOf(s, '@');
    && NoWhitespace(s)
    && 0 < at < |s|
    && IndexOf(s[at + 1..], '@') == |s| - at - 1
    && at + 2 < |s| - 1
    && '.' in s[at + 2..|s| - 1]
  }

  /** The scan accepts exactly the strings the pattern matches. */
  lemma EmailCheckIsPattern(s: string)
    ensures LooksLikeEmail(s) <==> MatchesEmailPattern(s)
  {
    if LooksLikeEmail(s) {
      var at := IndexOf(s, '@');
      var k :| at + 2 <= k < |s| - 1 && s[k] == '.';
      assert forall m :: at + 1 <= m < |s| ==> s[m] == s[at + 1..][m - at - 1];
      assert SplitsAt(s, at, k);
    }
    if MatchesEmailPattern(s) {
      var at, dot :| SplitsAt(s, at, dot);
      PatternFacts(s, at, dot);
    }
  }

  /** What a split into segments tells the scan. */
  lemma PatternFacts(s: string, at: int, dot: int)
    requires SplitsAt(s, at, dot)
    ensures LooksLikeEmail(s)
  {
    assert forall m :: 0 <= m < at ==> s[m] == s[..at][m];
    assert forall m :: at + 1 <= m < dot ==> s[m] == s[at + 1..dot][m - at - 1];
    assert forall m :: dot + 1 <= m < |s| ==> s[m] == s[dot + 1..][m - dot - 1];
    assert IndexOf(s, '@') == at;
    var rest := s[at + 1..];
    assert forall m :: 0 <= m < |rest| ==> rest[m] == s[at + 1 + m];
    assert '@' !in rest;
    assert s[at + 2..|s| - 1][dot - at - 2] == '.';
  }

  /** `canManageUsers`. */
  predicate CanManageUsers(role: Role) {
    role == Superadmin || role == Admin
  }

  /** The roles the add form offers a manager: only a superadmin may create admins. */
  function RoleOptions(current: Role): (r: seq<Role>)
    ensures |r| >= 1 && r[0] == User
    ensures Admin in r <==> current == Superadmin
    ensures Superadmin !in r
  {
    if current == Superadmin then [User, Admin] else [User]
  }

  /** Below the superadmin, the only role on offer is user. */
  lemma OnlyUserOffered(current: Role, role: Role)
    requires role in RoleOptions(current) && current != Superadmin
    ensures role == User
  {
  }

  /** Whether a listed user's role may be changed in place: by a superadmin only. */
  function OffersRoleEditing(current: Role): (r: bool)
    ensures r ==> CanManageUsers(current)
    ensures r <==> current == Superadmin
  {
    CanManageUsers(current) && current == Superadmin
  }

  /** The mobile role toggle: an admin becomes a user, anyone else an admin. */
  function ToggleRole(role: Role): (r: Role)
    ensures r != Superadmin && r != role
  {
    if role == Admin then User else Admin
  }

  /** Toggling a listed user's role twice restores it. */
  lemma ToggleTwice(role: Role)
    requires role != Superadmin
    ensures ToggleRole(ToggleRole(role)) == role
  {
  }

  /** The add button's `disabled`: while adding, or while the input is blank. */
  predicate AddDisabled(adding: bool, input: string) {
    adding || Trim(input) == []
  }

  /** The mobile modal listens to the allowlist only while visible; the desktop screen for as long as it is mounted. */
  function SubscriptionActive(p: Platform, visible: bool): (r: bool)
    ensures p == Mobile ==> (r <==> visible)
    ensures p == Desktop ==> r
  {
    p == Desktop || visible
  }

  function InvalidEmailMessage(p: Platform): string {
    if p == Desktop then "Please enter a valid email address" else "Please enter a valid email address."
  }

  function SuperadminMessage(p: Platform): string {
    if p == Desktop then "Superadmin is always authorized and cannot be added here"
    else "Superadmin is always authorized and cannot be added here."
  }

  /** The message the catch shows. */
  function FailureMessage(t: Thrown): (r: string)
    ensures t.ErrorObject? ==> r == t.message
    ensures t.OtherValue? ==> r == "Failed to add user"
  {
    match t
    case ErrorObject(message) => message
    case OtherValue => "Failed to add user"
  }

  /** The outcome of `handleAdd`'s checks, before any write. */
  datatype AddCheck = Ignored | Rejected(message: string) | Accepted(email: string)

  /** `handleAdd`'s guards in order, before any write. */
  function CheckNewEmail(p: Platform, input: string, superadmin: string): (r: AddCheck)
    ensures r.Accepted? ==> r.email == Normalize(input) && IsKey(r.email)
    ensures r.Accepted? ==> r.email != [] && !IsSuperAdmin(Some(r.email), superadmin)
  {
    var email := Normalize(input);
    NormalizeFacts(input);
    if email == [] then Ignored
    else if !LooksLikeEmail(email) then Rejected(InvalidEmailMessage(p))
    else if IsSuperAdmin(Some(email), superadmin) then Rejected(SuperadminMessage(p))
    else Accepted(email)
  }

  /**
   * What the guards decide: a blank input is ignored silently; a
   * normalized email that does not match the pattern is refused, and so is
   * the superadmin; every other email is accepted.
   */
  lemma CheckNewEmailCases(p: Platform, input: string, superadmin: string)
    ensures var r := CheckNewEmail(p, input, superadmin);
            && (r.Ignored? <==> AllWhitespace(input))
            && (r == Rejected(InvalidEmailMessage(p)) <==>
                  !AllWhitespace(input) && !MatchesEmailPattern(Normalize(input)))
            && (r == Rejected(SuperadminMessage(p)) <==>
                  !AllWhitespace(input) && MatchesEmailPattern(Normalize(input)) && IsSuperAdmin(Some(Normalize(input)), superadmin))
            && (r.Accepted? <==>
                  !AllWhitespace(input) && MatchesEmailPattern(Normalize(input)) && !IsSuperAdmin(Some(Normalize(input)), superadmin))
  {
    NormalizeFacts(input);
    EmailCheckIsPattern(Normalize(input));
  }

  /** When the add button is enabled, pressing it never hits the silent blank-input return. */
  lemma EnabledIsNotIgnored(p: Platform, adding: bool, input: string, superadmin: string)
    requires !AddDisabled(adding, input)
    ensures !CheckNewEmail(p, input, superadmin).Ignored?
  {
    TrimmedEmpty(input);
    CheckNewEmailCases(p, input, superadmin);
  }

  /**
   * An accepted add writes one entry: never the superadmin's, and with the
   * role picked from the offered options, so a manager who is not the
   * superadmin only ever writes user entries.
   */
  lemma AcceptedWrite(p: Platform, input: string, superadmin: string, current: Role,
                      users: map<string, AllowedUserDoc>, role: Role, addedBy: string, now: int, k: string)
    requires CheckNewEmail(p, input, superadmin).Accepted?
    requires role in RoleOptions(current)
    requires var r := AddEntry(users, CheckNewEmail(p, input, superadmin).email, role, addedBy, now);
             k in r && (k !in users || r[k] != users[k])
    ensures !IsSuperAdmin(Some(k), superadmin)
    ensures current != Superadmin ==> AddEntry(users, CheckNewEmail(p, input, superadmin).email, role, addedBy, now)[k].role == Some(User)
  {
    var e := CheckNewEmail(p, input, superadmin).email;
    KeyIsNormal(e);
    var written := AddEntry(users, e, role, addedBy, now);
    assert k == e;
    assert written[k].role == Some(role);
    if current != Superadmin {
      OnlyUserOffered(current, role);
    }
  }

  /** The add form's state. */
  class AddUserForm {
    const platform: Platform
    const currentUserRole: Role
    const currentUserEmail: string
    var newEmail: string
    var newRole: Role
    var error: Option<string>
    var adding: bool

    /** The selected role is always one the form offers. */
    predicate Valid()
      reads this
    {
      newRole in RoleOptions(currentUserRole) && !adding
    }

    constructor (platform: Platform, currentUserRole: Role, currentUserEmail: string)
      ensures this.platform == platform && this.currentUserRole == currentUserRole
      ensures this.currentUserEmail == currentUserEmail
      ensures newEmail == "" && newRole == User && error == None && !adding
      ensures Valid()
    {
      this.platform := platform;
      this.currentUserRole := currentUserRole;
      this.currentUserEmail := currentUserEmail;
      newEmail := "";
      newRole := User;
      error := None;
      adding := false;
    }

    /** Typing in the email field. */
    method SetEmail(text: string)
      modifies `newEmail
      ensures newEmail == text
    {
      newEmail := text;
    }

    /** Picking one of the offered roles. */
    method SelectRole(role: Role)
      requires Valid() && role in RoleOptions(currentUserRole)
      modifies `newRole
      ensures newRole == role && Valid()
    {
      newRole := role;
    }

    /**
     * `handleAdd`. `thrown` is what `addAllowedUser` throws, if it fails;
     * a failed write changes nothing. `adding` is false when it returns.
     */
    method HandleAdd(list: AllowList, superadmin: string, now: int, thrown: Option<Thrown>)
      requires Valid()
      modifies `newEmail, `newRole, `error, `adding, list
      ensures Valid()
      ensures var c := CheckNewEmail(platform, old(newEmail), superadmin);
              && (c.Ignored? ==> newEmail == old(newEmail) && newRole == old(newRole) && error == old(error))
              && (c.Rejected? ==> newEmail == old(newEmail) && newRole == old(newRole) && error == Some(c.message))
              && (!c.Accepted? ==> list.users == old(list.users))
              && (c.Accepted? ==> Submitted(c.email, old(list.users), old(newEmail), old(newRole), now, thrown, list.users))
    {
      var c := CheckNewEmail(platform, newEmail, superadmin);
      if c.Ignored? {
        return;
      }
      if c.Rejected? {
        error := Some(c.message);
        return;
      }
      Submit(list, c.email, now, thrown);
    }

    /** The outcome of the write of an accepted `email`. */
    ghost predicate Submitted(email: string, users: map<string, AllowedUserDoc>, email0: string, role0: Role, now: int,
                              thrown: Option<Thrown>, users1: map<string, AllowedUserDoc>)
      reads this
    {
      && (thrown.Some? ==>
            newEmail == email0 && newRole == role0 && error == Some(FailureMessage(thrown.value)) && users1 == users)
      && (thrown.None? ==>
            newEmail == "" && newRole == User && error == None && users1 == AddEntry(users, email, role0, currentUserEmail, now))
    }

    /** The write of an accepted email, from `setAdding(true)` to `finally`. */
    method Submit(list: AllowList, email: string, now: int, thrown: Option<Thrown>)
      requires Valid()
      modifies `newEmail, `newRole, `error, `adding, list
      ensures Valid()
      ensures Submitted(email, old(list.users), old(newEmail), old(newRole), now, thrown, list.users)
    {
      error := None;
      adding := true;
      if thrown.None? {
        list.Add(email, newRole, currentUserEmail, now);
        newEmail := "";
        newRole := User;
      } else {
        error := Some(FailureMessage(thrown.value));
      }
      adding := false;
    }
  }
}
