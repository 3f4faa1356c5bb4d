# TMX Notes: the client-side note and authorization core, in Dafny

TMX Notes is a shared note-taking application with two clients. One is a
desktop renderer (Electron, React); the other is a mobile app
(React Native). Both talk to the same Firebase project.

This project models the logic both clients run on the client side:

- **Content derivation.** A note's title and its plain-text preview are
  derived from its rich-text document. The mobile fallback editor converts
  between a document and multi-line text.
- **The notes collection.** It is a map from document id to note. The
  writes are create, update content, soft delete, toggle pin and assign.
  A subscription returns the notes a query matches, sorted pinned first and
  then newest first. The sort is an in-place insertion sort over an array,
  proved sorted and a permutation.
- **The allowlist.** It is a map from normalized email to document. On top
  of it sit the authorization resolver (with the superadmin short-circuit),
  the add, remove and role-merge writes, and the listing sorted by email.
- **State machines:**
  - the debounce wrapper, with an explicit clock;
  - the desktop editor's sync rules (`noteIdRef`, `isLocalUpdate`, focus);
  - the mobile fallback editor;
  - the note-assignment selection;
  - the auth handler and its store;
  - the note-selection store;
  - both theme stores.
- **Guards:**
  - the add-user form (trim, lowercase, email pattern, superadmin refusal);
  - role gating;
  - screen routing from the auth state;
  - the new, delete and pin handlers;
  - the search filters;
  - the Firebase configuration check;
  - the desktop window-open rule and its content-security-policy switch.

The modules, one per file:

| file | module | models |
|---|---|---|
| `wrappers.dfy` | `Wrappers` | `Option`, and a thrown value (an `Error` with a message, or anything else) |
| `text.dfy` | `Text` | the JavaScript string primitives used: `trim`, `toLowerCase`, `includes`, `startsWith`, `join`, ordinal comparison |
| `content.dfy` | `Content` | the document tree, `extractText`, `extractTitle`, `extractPlainTextPreview` |
| `plain_text.dfy` | `PlainText` | `jsonToPlainText`, `split(/\n+/)`, `plainTextToJson`, their round trip |
| `fallback_editor.dfy` | `FallbackEditor` | the mobile editor's fallback input (a class) |
| `notes.dfy` | `Notes` | the note record and the field updates of each write |
| `sorting.dfy` | `Sorting` | `Array.prototype.sort` with a comparator, as an in-place insertion sort |
| `note_store.dfy` | `NoteStore` | the notes collection (a class), the queries, the comparator, the subscription |
| `allowlist.dfy` | `Allowlist` | `isSuperAdmin`, `checkUserAllowed`, the allowlist writes and the listing (a class) |
| `user_form.dfy` | `UserForm` | the add-user form, the email pattern, the role gating (a class) |
| `assign_modal.dfy` | `AssignModal` | the note-assignment modal and its selection set (a class) |
| `debounce.dfy` | `Debounce` | `useDebounce` as a one-slot timer over an explicit clock (a class) |
| `desktop_editor.dfy` | `DesktopEditor` | the desktop editor's sync rules and its debounced save (a class) |
| `auth.dfy` | `Auth` | the auth store (a class) and the `onAuthStateChanged` handlers |
| `screens.dfy` | `Screens` | screen routing, the note-selection store (a class), the note handlers, the Ctrl/Cmd+N shortcut |
| `search.dfy` | `Search` | the search filters of both clients and the desktop list view |
| `themes.dfy` | `Themes`, `MobileTheme`, `DesktopTheme` | both theme stores (classes) |
| `config.dfy` | `FirebaseConfig` | the required-field check, app reuse, the auth-initialisation fallback |
| `window_policy.dfy` | `WindowPolicy` | the window-open handler and the production-only content-security policy |

How values from outside the model are handled:

- Server timestamps and clock times are integers supplied by the caller.
- The id `addDoc` picks is a caller-supplied id that is not yet in use.
- The allowlist lookup in the auth handler is a parameter: its answer, or
  `None` when it threw.
- A failed write is an id that is not in the map.
- The superadmin email and the Firebase configuration are parameters.

## Model

| member | source | states |
|---|---|---|
| Content.ExtractTextCases | Electron/src/renderer/src/utils/content.ts:3-7 | a node's own non-empty text is its text; with no text and no children it is `''`; otherwise it is its children's texts joined with no separator |
| Content.ConcatIsJoin | Electron/src/renderer/src/utils/content.ts:6 | the recursion over the children equals `map(extractText).join('')` |
| Content.ExtractTitle | Electron/src/renderer/src/utils/content.ts:9-15 | the title is never empty and always trimmed; a document without blocks is `'Untitled'` |
| Content.TitleIsFirstBlock | Electron/src/renderer/src/utils/content.ts:12-14 | when the first block's trimmed text is not empty, that text is the title |
| Content.TitleOfBlankFirstBlock | Electron/src/renderer/src/utils/content.ts:14 | a whitespace-only first block gives `'Untitled'`, whatever follows it |
| Content.TitleDependsOnFirstBlock | Electron/src/renderer/src/utils/content.ts:12-13 | blocks after the first do not affect the title |
| Content.ExtractPlainTextPreview | Electron/src/renderer/src/utils/content.ts:17-23 | `''` without blocks; text of at most `maxLength` characters is returned verbatim; longer text gives exactly its first `maxLength` characters plus the 3-character suffix; length at most `maxLength` + 3 |
| Content.PreviewStartsTrimmed | Electron/src/renderer/src/utils/content.ts:20-22 | the preview never starts with whitespace |
| Content.PreviewDefaultBound | Electron/src/renderer/src/utils/content.ts:17 | with the default `maxLength` of 120 a preview is at most 123 characters |
| Content.Paragraphs | React-Native/src/components/NoteEditor.tsx:39-47 | a `'doc'` with exactly one paragraph per line, in order |
| Content.ParagraphText | React-Native/src/components/NoteEditor.tsx:26-30 | the text of the paragraph built from a line is that line, including the empty line |
| PlainText.JsonToPlainText | React-Native/src/components/NoteEditor.tsx:32-34 | the result is trimmed; a document without blocks gives `''` |
| PlainText.SplitLines | React-Native/src/components/NoteEditor.tsx:37 | `split(/\n+/)` yields at least one piece, and no piece holds a newline |
| PlainText.TrimAll | React-Native/src/components/NoteEditor.tsx:37 | `map(line => line.trim())`: the same length, each line trimmed |
| PlainText.PlainTextToJson | React-Native/src/components/NoteEditor.tsx:36-49 | a `'doc'` with at least one block: one paragraph per trimmed piece of the split (so the `[{type:'paragraph'}]` fallback is unreachable) |
| PlainText.PlainTextBlocks | React-Native/src/components/NoteEditor.tsx:39-42 | block `i` is a paragraph; a blank line gives no content, any other line exactly one text node holding the trimmed line |
| PlainText.SplitSingleLine | React-Native/src/components/NoteEditor.tsx:37 | text without newlines splits into itself |
| PlainText.SplitAfterLine | React-Native/src/components/NoteEditor.tsx:37 | a line, one newline and text not starting with a newline splits off that line first |
| PlainText.SplitJoin | React-Native/src/components/NoteEditor.tsx:37 | non-empty lines without newlines, joined by `'\n'`, split back into the same lines |
| PlainText.TrimAllNoop | React-Native/src/components/NoteEditor.tsx:37 | trimming already-trimmed lines changes nothing |
| PlainText.ParagraphTexts | React-Native/src/components/NoteEditor.tsx:33 | the paragraphs built from lines give back those lines as their texts |
| PlainText.EmptyRoundTrip | React-Native/src/components/NoteEditor.tsx:32-49 | the empty text converts to one empty paragraph, whose plain text is `''` again |
| PlainText.JoinedTrimmed | React-Native/src/components/NoteEditor.tsx:33 | well-formed lines joined by `'\n'` are already trimmed |
| PlainText.ConvertJoined | React-Native/src/components/NoteEditor.tsx:36-49 | well-formed lines joined by `'\n'` convert to exactly one paragraph per line |
| PlainText.RoundTrip | React-Native/src/components/NoteEditor.tsx:32-49 | for text made of non-empty trimmed lines separated by single newlines, `jsonToPlainText(plainTextToJson(t)) == t` |
| FallbackEditor.PlainTextEditor.constructor | React-Native/src/components/NoteEditor.tsx:53-54 | mounting tracks the note's id and shows its plain text |
| FallbackEditor.PlainTextEditor.NoteArrived | React-Native/src/components/NoteEditor.tsx:65-70 | a note with another id replaces the tracked id and the text; the same id leaves the text being edited alone |
| FallbackEditor.PlainTextEditor.ChangeText | React-Native/src/components/NoteEditor.tsx:93-96 | the input shows what was typed, and the save scheduled is the note's id with `plainTextToJson` of the text |
| Notes.DefaultContentDerived | Electron/src/renderer/src/lib/firestore.ts:19-22 | the default content's derived title is `'Untitled'` and its preview is `''`, which are the literals `createNote` writes |
| Notes.NewNote | React-Native/src/lib/firestore.ts:33-51 | a new note has title `'Untitled'`, preview `''`, the default content, is not pinned and not deleted, is owned by and attributed to its creator, has no tags, and on mobile has an empty `assignedTo` (on desktop none) |
| Notes.WithContent | Electron/src/renderer/src/lib/firestore.ts:51-64 | the new content with its derived title and preview, a new timestamp and editor; pin, deletion, assignment, owner and creator are unchanged |
| Notes.WithDeleted | React-Native/src/lib/firestore.ts:63-69 | soft delete: `isDeleted` becomes true; only it, `updatedAt` and `lastEditedBy` change |
| Notes.WithPin | Electron/src/renderer/src/lib/firestore.ts:75-82 | the pin flag becomes the negation of the flag passed; only it, `updatedAt` and `lastEditedBy` change |
| Notes.LowerAll | React-Native/src/lib/firestore.ts:81 | the emails lowercased, in the same order and with the same length |
| Notes.WithAssigned | React-Native/src/lib/firestore.ts:79-83 | `assignedTo` becomes the lowercased emails in order; no other field changes, not even `updatedAt` |
| Notes.UpdatesKeepConsistent | React-Native/src/lib/firestore.ts:53-83 | every write keeps title and preview equal to what the content derives |
| Notes.PinTwice | Electron/src/renderer/src/lib/firestore.ts:75-82 | toggling twice, each time with the then-current flag, restores the note up to timestamp and editor |
| Notes.AssignIdempotent | React-Native/src/lib/firestore.ts:79-83 | assigning the already-lowercased assignees again changes nothing |
| NoteStore.NoteCollection.constructor | Electron/src/renderer/src/lib/firestore.ts:17 | the collection starts empty and consistent |
| NoteStore.NoteCollection.CreateNote | Electron/src/renderer/src/lib/firestore.ts:33-49 | the new note is stored under the fresh id, which is returned; nothing else changes |
| NoteStore.NoteCollection.UpdateNoteContent | Electron/src/renderer/src/lib/firestore.ts:51-64 | an existing note is replaced by its content update; a missing id fails and changes nothing |
| NoteStore.NoteCollection.DeleteNote | Electron/src/renderer/src/lib/firestore.ts:66-73 | the note stays stored, marked deleted; the set of ids does not change |
| NoteStore.NoteCollection.TogglePinNote | Electron/src/renderer/src/lib/firestore.ts:75-82 | the stored note gets the negation of the passed flag |
| NoteStore.NoteCollection.AssignNoteToUsers | React-Native/src/lib/firestore.ts:79-83 | the stored note's assignees become the lowercased emails |
| NoteStore.NoteCollection.Subscribe | React-Native/src/lib/firestore.ts:99-114 | each delivery holds every note the query matches exactly once, under its id and nothing else, sorted by the comparator |
| NoteStore.DesktopQuery | Electron/src/renderer/src/lib/firestore.ts:89-93 | a note matches iff its `userId` is the given id and it is not deleted |
| NoteStore.MobileQuery | React-Native/src/lib/firestore.ts:91-97 | for the superadmin every live note matches; otherwise the live notes whose `assignedTo` contains the lowercased email |
| NoteStore.DeletedMatchesNothing | React-Native/src/lib/firestore.ts:91-97 | a soft-deleted note matches no query |
| NoteStore.NewNoteVisible | Electron/src/renderer/src/lib/firestore.ts:89-93 | a new note matches its creator's desktop query and the mobile superadmin query |
| NoteStore.CompareIsOrder | Electron/src/renderer/src/lib/firestore.ts:105-110 | the comparator puts pinned before unpinned, then larger `updatedAt` first (missing as 0), and is consistent |
| NoteStore.SortedPinnedFirst | Electron/src/renderer/src/lib/firestore.ts:106 | in a delivered list every pinned note precedes every unpinned note |
| NoteStore.SortedNewestFirst | Electron/src/renderer/src/lib/firestore.ts:107-109 | within the same pin state, `updatedAt` does not increase (missing as 0) |
| NoteStore.SnapshotPermuted | React-Native/src/lib/firestore.ts:102-112 | sorting a snapshot (a permutation) leaves it a snapshot of the same query |
| NoteStore.SnapshotIdsDistinct | React-Native/src/lib/firestore.ts:102-105 | no id appears twice in a delivery |
| Sorting.Sort | Electron/src/renderer/src/lib/firestore.ts:105-110 | after the sort the array is ordered by the comparator and is a permutation of what it held |
| Allowlist.NormalizeFacts | Electron/src/renderer/src/lib/user-management.ts:50 | `toLowerCase().trim()` gives a normalized key; it is empty iff the email is blank |
| Allowlist.NormalizeIdempotent | React-Native/src/lib/user-management.ts:42 | normalizing twice is normalizing once |
| Allowlist.IsSuperAdmin | Electron/src/renderer/src/lib/user-management.ts:20-22 | only an email that is present can be the superadmin |
| Allowlist.SuperAdminIffSameLetters | Electron/src/renderer/src/lib/user-management.ts:20-22 | the superadmin test holds iff an email is present, has the configured email's length and agrees with it letter by letter after lowercasing, so every other email is refused |
| Allowlist.SuperAdminIgnoresCase | React-Native/src/lib/user-management.ts:19-21 | the comparison ignores case on both sides, and the configured email is the superadmin |
| Allowlist.QueryIsLookup | Electron/src/renderer/src/lib/user-management.ts:31-35 | when every document's email is its id, the `where('email', '==', e)` query selects at most the document with id `e` |
| Allowlist.CheckUserAllowed | Electron/src/renderer/src/lib/user-management.ts:24-43 | the superadmin is `(true, superadmin)` whatever the table holds; otherwise allowed iff the email query is non-empty, with the stored role or `'user'`; a refusal is `(false, 'user')` |
| Allowlist.AddEntry | Electron/src/renderer/src/lib/user-management.ts:45-59 | the document under the normalized email is overwritten with that email, the role, the adder and the time; every other document is unchanged |
| Allowlist.RemoveEntry | React-Native/src/lib/user-management.ts:52-55 | the document under the normalized email is gone; every other document is unchanged |
| Allowlist.UpdateRole | Electron/src/renderer/src/lib/user-management.ts:67-71 | merge: an existing document changes its role only; a missing one appears holding only the role; every other document is unchanged |
| Allowlist.AddThenCheck | React-Native/src/lib/user-management.ts:41-50 | after an add, signing in with any spelling whose lowercase is the key is allowed with the added role |
| Allowlist.RemoveThenCheck | Electron/src/renderer/src/lib/user-management.ts:61-65 | after removing a normalized non-superadmin email, checking it gives `(false, 'user')` |
| Allowlist.UpdateThenCheck | React-Native/src/lib/user-management.ts:57-60 | after a role update on a listed email, the check answers the new role |
| Allowlist.UpdateMissingStaysOut | Electron/src/renderer/src/lib/user-management.ts:67-71 | a role update on an email without a document does not let it in |
| Allowlist.LookupDoesNotTrim | React-Native/src/lib/user-management.ts:30 | the lookup lowercases but does not trim: an email added with leading whitespace and signed in with it is refused |
| Allowlist.EmailCompareConsistent | Electron/src/renderer/src/lib/user-management.ts:85 | the listing comparator is consistent |
| Allowlist.ListingAscends | React-Native/src/lib/user-management.ts:74 | in a sorted listing the emails ascend |
| Allowlist.AllowList.constructor | Electron/src/renderer/src/lib/user-management.ts:16 | the collection starts empty and well-keyed |
| Allowlist.AllowList.Check | Electron/src/renderer/src/lib/user-management.ts:24-43 | the check answers `CheckUserAllowed` of the current documents |
| Allowlist.AllowList.Add | Electron/src/renderer/src/lib/user-management.ts:45-59 | the documents become `AddEntry` of the old ones and stay well-keyed |
| Allowlist.AllowList.Remove | Electron/src/renderer/src/lib/user-management.ts:61-65 | the documents become `RemoveEntry` of the old ones and stay well-keyed |
| Allowlist.AllowList.SetRole | Electron/src/renderer/src/lib/user-management.ts:67-71 | the documents become `UpdateRole` of the old ones and stay well-keyed |
| Allowlist.AllowList.Listing | Electron/src/renderer/src/lib/user-management.ts:77-86 | every document exactly once under its id, sorted by email |
| Text.TrimLowerCommute | Electron/src/renderer/src/components/UserManagement.tsx:38 | `trim().toLowerCase()` equals `toLowerCase().trim()`, so the form's email is the key the library writes |
| UserForm.EmailCheckIsPattern | Electron/src/renderer/src/components/UserManagement.tsx:41 | the scan accepts exactly the strings that `^[^\s@]+@[^\s@]+\.[^\s@]+$` matches |
| UserForm.RoleOptions | React-Native/src/components/UserManagementModal.tsx:93 | `'user'` is always offered first; `'admin'` only to a superadmin; `'superadmin'` never |
| UserForm.OnlyUserOffered | Electron/src/renderer/src/components/UserManagement.tsx:113-114 | below the superadmin the only role on offer is user |
| UserForm.OffersRoleEditing | Electron/src/renderer/src/components/UserManagement.tsx:155 | a listed user's role can be edited only by a superadmin, who is also a manager |
| UserForm.ToggleRole | React-Native/src/components/UserManagementModal.tsx:148 | the toggle never yields superadmin and always changes the role |
| UserForm.ToggleTwice | React-Native/src/components/UserManagementModal.tsx:148 | toggling a user or admin twice restores the role |
| UserForm.SubscriptionActive | React-Native/src/components/UserManagementModal.tsx:29-37 | the mobile modal listens only while visible; the desktop screen always |
| UserForm.FailureMessage | Electron/src/renderer/src/components/UserManagement.tsx:58 | an `Error` shows its message; anything else shows `'Failed to add user'` |
| UserForm.CheckNewEmail | Electron/src/renderer/src/components/UserManagement.tsx:37-50 | an accepted email is the normalized input, non-empty, and not the superadmin |
| UserForm.CheckNewEmailCases | React-Native/src/components/UserManagementModal.tsx:41-53 | blank input is ignored silently; a non-matching email is rejected with the pattern message; the superadmin is rejected with its message; anything else is accepted, each iff its condition |
| UserForm.EnabledIsNotIgnored | Electron/src/renderer/src/components/UserManagement.tsx:118 | with the add button enabled, `handleAdd` never takes the silent blank-input return |
| UserForm.AcceptedWrite | Electron/src/renderer/src/components/UserManagement.tsx:51-54 | an accepted add never writes the superadmin's document, and a manager below superadmin only writes user entries |
| UserForm.AddUserForm.constructor | Electron/src/renderer/src/components/UserManagement.tsx:23-27 | empty email, role user, no error, not adding |
| UserForm.AddUserForm.SetEmail | Electron/src/renderer/src/components/UserManagement.tsx:103 | typing sets the email field only |
| UserForm.AddUserForm.SelectRole | React-Native/src/components/UserManagementModal.tsx:96 | picking an offered role sets it, and the selection stays an offered role |
| UserForm.AddUserForm.HandleAdd | React-Native/src/components/UserManagementModal.tsx:41-67 | ignored: nothing changes; rejected: the error is set and nothing is written; accepted: one write, then a reset form on success or the error message on failure; `adding` is false afterwards |
| UserForm.AddUserForm.Submit | Electron/src/renderer/src/components/UserManagement.tsx:51-61 | the write of an accepted email, from `setAdding(true)` to `finally` |
| AssignModal.Dedup | React-Native/src/components/NoteAssignModal.tsx:34 | `new Set(s)` holds each member of `s` once |
| AssignModal.DedupKeepsFirstOrder | React-Native/src/components/NoteAssignModal.tsx:34 | the set lists its members in the order of their first occurrence in `s` |
| AssignModal.Remove | React-Native/src/components/NoteAssignModal.tsx:65 | `delete` removes exactly that email and keeps the rest |
| AssignModal.InitialSelection | React-Native/src/components/NoteAssignModal.tsx:32-35 | the note's assignees lowercased, each once; none when it has no list |
| AssignModal.Toggle | React-Native/src/components/NoteAssignModal.tsx:63-68 | a tap flips that email's membership and no other's |
| AssignModal.ToggleTwice | React-Native/src/components/NoteAssignModal.tsx:63-68 | two taps on one email restore the members and the count; an unselected email restores the sequence exactly |
| AssignModal.CountIsSize | React-Native/src/components/NoteAssignModal.tsx:37 | the displayed count is the number of selected emails |
| AssignModal.SaveUnchangedKeepsAssignees | React-Native/src/components/NoteAssignModal.tsx:32-35 | saving without a tap stores the same assignees, lowercased, each once |
| AssignModal.NoteAssignModal.constructor | React-Native/src/components/NoteAssignModal.tsx:17-18 | no note, empty selection, not saving |
| AssignModal.NoteAssignModal.NoteChanged | React-Native/src/components/NoteAssignModal.tsx:32-35 | a note resets the selection to its assignees; no note leaves it |
| AssignModal.NoteAssignModal.Tap | React-Native/src/components/NoteAssignModal.tsx:62-69 | the selection becomes its toggle on the tapped email |
| AssignModal.NoteAssignModal.Save | React-Native/src/components/NoteAssignModal.tsx:89-96 | writes the selection as the assignees and closes on success; a failure leaves it open; `saving` is false afterwards |
| Debounce.Fire | React-Native/src/hooks/useDebounce.ts:9 | a due run fires with its arguments and empties the slot; otherwise nothing happens |
| Debounce.Schedule | React-Native/src/hooks/useDebounce.ts:8-9 | a call replaces the slot with exactly one run, `delay` later, with these arguments; nothing runs at the call |
| Debounce.Step | React-Native/src/hooks/useDebounce.ts:7-10 | a call leaves exactly one run pending; only a run that was pending fires, with its own arguments |
| Debounce.BurstKeepsOnePending | React-Native/src/hooks/useDebounce.ts:8 | during a burst nothing fires, and the slot holds the last call's arguments |
| Debounce.BurstRunsOnce | React-Native/src/hooks/useDebounce.ts:8-9 | a burst followed by `delay` of quiet runs the callback exactly once, with the last call's arguments |
| Debounce.NothingBeforeDelay | React-Native/src/hooks/useDebounce.ts:9 | before `delay` has passed nothing fires |
| Debounce.FreshAfterRun | React-Native/src/hooks/useDebounce.ts:9 | a call after a run has fired schedules a fresh, independent run |
| Debounce.LateCallRunsPending | React-Native/src/hooks/useDebounce.ts:7-10 | a call made after the pending run was due does not lose it: that run fires with its own arguments before the call reschedules |
| Debounce.Debouncer.constructor | React-Native/src/hooks/useDebounce.ts:4 | the timer starts empty |
| Debounce.Debouncer.Invoke | React-Native/src/hooks/useDebounce.ts:7-10 | a run already due fires first (its arguments are returned), then the timer holds one run `delay` later with the new arguments: one `Step` of the old timer |
| Debounce.Debouncer.Tick | React-Native/src/hooks/useDebounce.ts:9 | the timer and the fired arguments are `Fire` of the old timer |
| DesktopEditor.Mount | Electron/src/renderer/src/components/NoteEditor.tsx:16-17 | the refs start at the note's id and `false`, and the editor holds the note's content |
| DesktopEditor.AfterEdit | Electron/src/renderer/src/components/NoteEditor.tsx:35-38 | a save already due by the edit has run and is returned; the edit sets the flag and schedules a save of the edited content for the note the ref tracks now |
| DesktopEditor.AfterSwitch | Electron/src/renderer/src/components/NoteEditor.tsx:48-54 | a new id takes over the ref, clears the flag and replaces the content; the same id changes nothing |
| DesktopEditor.AfterSync | Electron/src/renderer/src/components/NoteEditor.tsx:57-62 | remote content is applied iff the ids match, the editor is unfocused and the flag is clear; the flag is always false afterwards |
| DesktopEditor.FocusedKeepsContent | Electron/src/renderer/src/components/NoteEditor.tsx:58 | while focused, remote content never overwrites the editor |
| DesktopEditor.OneEditSuppressesOneSync | Electron/src/renderer/src/components/NoteEditor.tsx:58-61 | one local edit suppresses exactly one sync; the next remote content is applied |
| DesktopEditor.SaveTargetsCurrentNote | Electron/src/renderer/src/components/NoteEditor.tsx:37 | after a switch, an edit saves to the new note, 1000 ms later |
| DesktopEditor.SwitchKeepsPendingSave | Electron/src/renderer/src/components/NoteEditor.tsx:37 | a save scheduled before a switch still runs for the old note, with its content, when the next edit comes after it was due |
| DesktopEditor.SaveContent | Electron/src/renderer/src/components/NoteEditor.tsx:19-28 | a save updates the note's content; a failure is caught and changes nothing |
| DesktopEditor.DesktopNoteEditor.constructor | Electron/src/renderer/src/components/NoteEditor.tsx:16-17 | the state is `Mount` of the note |
| DesktopEditor.DesktopNoteEditor.OnUpdate | Electron/src/renderer/src/components/NoteEditor.tsx:35-38 | a save due by the edit runs against the store first, failure swallowed; then the state becomes `AfterEdit` of the old state |
| DesktopEditor.DesktopNoteEditor.SetFocused | Electron/src/renderer/src/components/NoteEditor.tsx:58 | only the focus flag changes |
| DesktopEditor.DesktopNoteEditor.NoteSwitched | Electron/src/renderer/src/components/NoteEditor.tsx:48-54 | the state becomes `AfterSwitch` of the old state |
| DesktopEditor.DesktopNoteEditor.RemoteSync | Electron/src/renderer/src/components/NoteEditor.tsx:57-62 | the state becomes `AfterSync` of the old state |
| DesktopEditor.DesktopNoteEditor.Tick | Electron/src/renderer/src/components/NoteEditor.tsx:30 | a due save runs against the store with its failure swallowed; nothing else in the editor changes |
| Auth.Handle | React-Native/src/hooks/useAuth.ts:19-34 | the user is recorded; a user with an email gets the lookup's answer, or `(false, null)` when it threw; anyone else gets `(null, null)`; loading ends |
| Auth.HandleOverwrites | React-Native/src/hooks/useAuth.ts:19-34 | the handler's result does not depend on the earlier state, and granted authorization always comes with a role |
| Auth.DesktopHandleAsWritten | Electron/src/renderer/src/hooks/useAuth.ts:11-22 | without a catch, a failed lookup leaves authorization and loading as they were; otherwise it agrees with the corrected handler |
| Auth.DesktopFailureKeepsLoading | Electron/src/renderer/src/hooks/useAuth.ts:14-21 | a failed first lookup leaves the desktop client loading, where the caught version stops loading |
| Auth.AuthStore.constructor | React-Native/src/stores/auth-store.ts:15-19 | no user, loading, no role, authorization undecided |
| Auth.AuthStore.SetUser | React-Native/src/stores/auth-store.ts:20 | only `user` changes |
| Auth.AuthStore.SetLoading | React-Native/src/stores/auth-store.ts:21 | only `loading` changes |
| Auth.AuthStore.SetAuthorization | React-Native/src/stores/auth-store.ts:22 | `authorized` and `role` change together, nothing else |
| Auth.OnAuthStateChanged | React-Native/src/hooks/useAuth.ts:19-34 | the store ends in `Handle` of its old state |
| Auth.DesktopOnAuthStateChangedAsWritten | Electron/src/renderer/src/hooks/useAuth.ts:11-22 | the handler throws iff a user with an email meets a failed lookup; the store ends in `DesktopHandleAsWritten` of its old state |
| Screens.DesktopRoute | Electron/src/renderer/src/App.tsx:71-110 | loading, then login without a user, then unauthorized unless authorized is true, else the main view with the role, each iff its condition |
| Screens.MobileRoute | React-Native/App.tsx:17-38 | loading, then login, then unauthorized only on an explicit refusal, then loading again while the role is missing, else the main screen, each iff its condition |
| Screens.RoutesAgreeWhenDecided | React-Native/App.tsx:17-38 | once the lookup has answered, both clients show the same screen |
| Screens.DesktopLookupFailureRoute | Electron/src/renderer/src/App.tsx:71-80 | the desktop handler as written stays on the loading screen after a failed lookup; the corrected one shows the unauthorized screen |
| Screens.RemovedUserRefused | React-Native/src/lib/user-management.ts:52-55 | a removed user's next sign-in ends on the unauthorized screen on both clients |
| Screens.AddedUserAdmitted | Electron/src/renderer/src/lib/user-management.ts:45-59 | an added user's sign-in reaches the main screen with the added role on both clients |
| Screens.NoteSelection.constructor | React-Native/src/stores/note-store.ts:10-12 | nothing selected and an empty query |
| Screens.NoteSelection.SetSelectedNoteId | React-Native/src/stores/note-store.ts:13 | only the selection changes |
| Screens.NoteSelection.SetSearchQuery | React-Native/src/stores/note-store.ts:14 | only the query changes |
| Screens.CreateAndSelect | React-Native/src/screens/MainScreen.tsx:52-53 | the new note is stored and selected |
| Screens.DeleteAndDeselect | Electron/src/renderer/src/App.tsx:36-39 | the note is soft-deleted and the selection cleared iff it was the deleted note; a failed delete changes neither |
| Screens.DesktopNewNote | Electron/src/renderer/src/App.tsx:22-30 | only a signed-in superadmin creates (and selects) a note; anyone else changes nothing |
| Screens.MobileNewNote | React-Native/src/screens/MainScreen.tsx:50-54 | only the superadmin creates (and selects) a note |
| Screens.DesktopDelete | Electron/src/renderer/src/App.tsx:32-45 | only a signed-in superadmin deletes; a failure is caught and changes nothing |
| Screens.MobileDelete | React-Native/src/screens/MainScreen.tsx:56-63 | only the superadmin deletes; a failed delete rejects and changes nothing |
| Screens.DesktopTogglePin | Electron/src/renderer/src/App.tsx:47-57 | any signed-in user may toggle; a failure is caught |
| Screens.MobileTogglePin | React-Native/src/screens/MainScreen.tsx:65-70 | no role check; a failure rejects and changes nothing |
| Screens.OnKeyDown | Electron/src/renderer/src/App.tsx:59-69 | Ctrl+N or Cmd+N runs `handleNewNote` for the superadmin only; any other key changes nothing |
| Search.Filter | Electron/src/renderer/src/components/NoteList.tsx:17-21 | keeps exactly the notes whose lowercased title or preview contains the query |
| Search.FilterKeepsOrder | Electron/src/renderer/src/components/NoteList.tsx:17-21 | the filter keeps the matching notes in their original order |
| Search.KeptIndicesComplete | React-Native/src/screens/MainScreen.tsx:43-47 | every matching note is kept |
| Search.DesktopFilter | Electron/src/renderer/src/components/NoteList.tsx:16-22 | an empty query shows every note; otherwise the query is lowercased but not trimmed |
| Search.MobileFilter | React-Native/src/screens/MainScreen.tsx:39-48 | a blank query shows every note; otherwise the trimmed, lowercased query filters |
| Search.MobileIsDesktopOnTrimmed | React-Native/src/screens/MainScreen.tsx:40 | the mobile search is the desktop search on the trimmed query |
| Search.QueryCaseIgnored | Electron/src/renderer/src/components/NoteList.tsx:19-20 | letter case in the query does not matter on either client |
| Search.DesktopListView | Electron/src/renderer/src/components/NoteList.tsx:24-60 | skeletons while loading; a message when nothing is left (which one depends on the query); else the filtered notes |
| Search.NoNotesMessageMeansEmpty | Electron/src/renderer/src/components/NoteList.tsx:42 | "No notes yet" appears only for an empty list |
| Themes.Flip | React-Native/src/stores/theme-store.ts:19 | the other mode |
| MobileTheme.NameInjective | React-Native/src/stores/theme-store.ts:12 | the four theme ids are distinct |
| MobileTheme.IndexOf | React-Native/src/stores/theme-store.ts:29 | `indexOf`: the first position of the element, or -1 iff it is absent |
| MobileTheme.WithModeFlipped | React-Native/src/stores/theme-store.ts:17-21 | the mode changes and the style stays |
| MobileTheme.WithStyleFlipped | React-Native/src/stores/theme-store.ts:22-26 | the style changes and the mode stays |
| MobileTheme.Next | React-Native/src/stores/theme-store.ts:27-32 | the cycle always lands on one of the four ids |
| MobileTheme.TogglesAreInvolutions | React-Native/src/stores/theme-store.ts:17-26 | each toggle undoes itself, and the two commute |
| MobileTheme.EveryVariantInOrder | React-Native/src/stores/theme-store.ts:12 | every variant is in the cycle order, so `indexOf` never returns -1 |
| MobileTheme.CycleOrder | React-Native/src/stores/theme-store.ts:12-32 | the cycle goes modern-dark, modern-light, glass-dark, glass-light and back |
| MobileTheme.CycleFour | React-Native/src/stores/theme-store.ts:27-32 | four cycles return to the start |
| MobileTheme.ThemeStore.constructor | React-Native/src/stores/theme-store.ts:15 | the store starts at modern-dark |
| MobileTheme.ThemeStore.SetTheme | React-Native/src/stores/theme-store.ts:16 | the theme becomes the one given |
| MobileTheme.ThemeStore.ToggleMode | React-Native/src/stores/theme-store.ts:17-21 | the theme becomes its mode flip |
| MobileTheme.ThemeStore.ToggleStyle | React-Native/src/stores/theme-store.ts:22-26 | the theme becomes its style flip |
| MobileTheme.ThemeStore.CycleTheme | React-Native/src/stores/theme-store.ts:27-32 | the theme becomes the next in the cycle |
| DesktopTheme.Parse | Electron/src/renderer/src/stores/theme-store.ts:16 | a recognised string is the name of the id it yields |
| DesktopTheme.ParseName | Electron/src/renderer/src/stores/theme-store.ts:16-17 | every id is recognised when read back |
| DesktopTheme.InitialTheme | Electron/src/renderer/src/stores/theme-store.ts:14-20 | a stored valid id is used; anything else gives glass-dark |
| DesktopTheme.InitialIsStoredIff | Electron/src/renderer/src/stores/theme-store.ts:14-20 | the initial theme is the stored string iff that string is one of the four ids |
| DesktopTheme.WithModeFlipped | Electron/src/renderer/src/stores/theme-store.ts:36-42 | the mode changes and the style stays |
| DesktopTheme.WithStyleFlipped | Electron/src/renderer/src/stores/theme-store.ts:43-49 | the style changes and the mode stays |
| DesktopTheme.TogglesAreInvolutions | Electron/src/renderer/src/stores/theme-store.ts:36-49 | each toggle undoes itself, and the two commute |
| DesktopTheme.ThemeStore.constructor | Electron/src/renderer/src/stores/theme-store.ts:27-31 | the initial theme is read from storage, shown and saved |
| DesktopTheme.ThemeStore.Apply | Electron/src/renderer/src/stores/theme-store.ts:22-25 | `data-theme` and the `tmx-theme` entry become the id |
| DesktopTheme.ThemeStore.SetTheme | Electron/src/renderer/src/stores/theme-store.ts:32-35 | the theme is set, shown and saved |
| DesktopTheme.ThemeStore.ToggleMode | Electron/src/renderer/src/stores/theme-store.ts:36-42 | the theme becomes its mode flip, shown and saved |
| DesktopTheme.ThemeStore.ToggleStyle | Electron/src/renderer/src/stores/theme-store.ts:43-49 | the theme becomes its style flip, shown and saved |
| DesktopTheme.RestartRestoresTheme | Electron/src/renderer/src/stores/theme-store.ts:14-28 | after a restart the store comes back with the theme it last saved |
| FirebaseConfig.MissingAmongMembers | Electron/src/renderer/src/lib/firebase.ts:16 | the filter keeps exactly the listed fields that are unset or empty |
| FirebaseConfig.MissingInOrder | React-Native/src/lib/firebase.ts:23-24 | the missing fields are the falsy required ones, in the order apiKey, authDomain, projectId, appId |
| FirebaseConfig.OptionalFieldsIgnored | Electron/src/renderer/src/lib/firebase.ts:15 | the storage bucket and sender id are never required |
| FirebaseConfig.DesktopStartup | Electron/src/renderer/src/lib/firebase.ts:15-30 | loading throws iff a required field is unset or empty, naming the missing fields |
| FirebaseConfig.MobileStartup | React-Native/src/lib/firebase.ts:23-28 | loading throws iff a required field is unset or empty, naming the missing fields |
| FirebaseConfig.ClientsAgree | React-Native/src/lib/firebase.ts:23-28 | both clients refuse the same configurations |
| FirebaseConfig.OneMissingNamed | React-Native/src/lib/firebase.ts:27 | a single missing `projectId` gives exactly "Firebase configuration error. Missing fields: projectId" |
| FirebaseConfig.MobileApp | React-Native/src/lib/firebase.ts:30 | an existing app is reused; otherwise a new one holds this configuration |
| FirebaseConfig.ReloadReusesApp | React-Native/src/lib/firebase.ts:30 | reloading the module keeps the app the first load created |
| FirebaseConfig.MobileAuth | React-Native/src/lib/firebase.ts:32-45 | persistent auth unless initialisation threw; an `Error` mentioning "already-initialized" falls back to the existing auth; anything else is thrown again |
| FirebaseConfig.AlreadyInitializedFallsBack | React-Native/src/lib/firebase.ts:39-41 | any message containing "already-initialized" falls back |
| WindowPolicy.OnWindowOpen | Electron/src/main/index.ts:53-76 | allowed iff the URL is a Google accounts or Firebase auth page, in a 500 by 700 popup without node integration and with context isolation; otherwise denied and opened externally |
| WindowPolicy.GoogleAccountsAllowed | Electron/src/main/index.ts:57 | every URL under `https://accounts.google.com/` opens in-app |
| WindowPolicy.FirebaseHostAnywhereAllowed | Electron/src/main/index.ts:58-59 | a URL that mentions `.firebaseapp.com` anywhere opens in-app, whatever its host |
| WindowPolicy.OtherUrlsOpenExternally | Electron/src/main/index.ts:74-75 | any other URL is denied and handed to the system browser |
| WindowPolicy.ResponseHeaders | Electron/src/main/index.ts:27-44 | in development the headers pass through; otherwise the policy header is added and every other header kept |
| WindowPolicy.ProductionScriptsSelfOnly | Electron/src/main/index.ts:35 | the production policy allows scripts only from the app itself |

## Left out

- Firebase itself (Firestore, Auth, `onSnapshot`, `serverTimestamp`, `addDoc` ids) is replaced by in-memory maps with caller-supplied times and ids. Network failures, latency and offline behaviour are not modelled.
- A failed write is modelled as a write to a missing document: it changes nothing. Other failures (permissions, network) are not distinguished.
- Asynchronous interleaving is not modelled: each handler runs to completion before the next event. Races between awaits (two overlapping auth events, a delete completing after the selection changed) are out of scope.
- Real timers: `setTimeout`/`clearTimeout` are an explicit integer clock. A run fires at the first event (a call, an edit or a tick) whose time has reached it, so a save runs with that event's time as `now` rather than exactly at its due time.
- React rendering, JSX, styles, animation and the theme tokens are not modelled; only the state and decisions behind them are.
- The rich-text editor library is not modelled. An editor is its content and a focus flag; `editor.getJSON()` and `setContent` are the document itself.
- The mobile rich-text (TenTap) editor path is not modelled; the fallback input is.
- `useNotes` and `useNote` are not modelled beyond the subscription they wrap, and neither are the sign-in and sign-out flows (`signInWithPopup`, Google Sign-In).
- `console.error` output is left out; the catches that only log are modelled as swallowing the error.
- The date formatting helpers and the Electron main-process plumbing (window creation, preload, menus, app lifecycle) are left out; only the window-open rule and the policy switch are modelled.
- `toLowerCase` lowercases ASCII `A`-`Z` only; full Unicode case mapping is not modelled.
- `localeCompare` in the allowlist listing is modelled as ordinal comparison of characters (Unicode scalar values), not of locale collation or UTF-16 code units.
- Content.ExtractPlainTextPreview: lengths and the cut count characters (Unicode scalar values), while JavaScript's `length` and `slice` count UTF-16 code units; text with characters outside the Basic Multilingual Plane is cut later than the source cuts it, and the source's cut inside a surrogate pair has no counterpart, since a Dafny string cannot hold half a pair.
- `Array.prototype.sort` is modelled as an insertion sort. The order of notes or entries the comparator ties is not specified by the model.
- The desktop client's `useDebounce`, `auth-store.ts` and `note-store.ts` are not part of this model; the mobile files of the same names, which have the same shape, are modelled and used for both.
- The mobile `NoteList` component is presentational and is not modelled; the mobile filtering lives in `MainScreen` and is.
- `NoteStore.NoteCollection.CreateNote`: the id `addDoc` picks is a parameter required to be fresh, since the generator is not modelled.
- `Allowlist.CheckUserAllowed`: the email query is modelled as a lookup of the document whose id is the lowercased email. This equals the query when every document's email is its id, which every write keeps (`Allowlist.QueryIsLookup`, `Allowlist.AllowList.Add`); in an allowlist written by other means the two can differ.
- `Allowlist.AllowList.Listing` requires every document to carry an email, because the source's comparator reads `a.email`; a role-only document (from a role update on an unlisted email) would make the source's sort throw, which is not modelled.

## Findings

| source | as written | input that shows it | evidently intended | confidence | as-written member | corrected member |
|---|---|---|---|---|---|---|
| Electron/src/renderer/src/hooks/useAuth.ts:14-21 | `checkUserAllowed` is awaited without a catch, so when it throws, `setAuthorization` and `setLoading(false)` are skipped | a signed-in user with an email whose allowlist lookup rejects (for example, offline on the first auth event): `loading` stays true and the app stays on the loading screen | catch the failure as the mobile handler does: `(false, null)`, then stop loading, which shows the unauthorized screen | medium, not executed | Auth.DesktopHandleAsWritten (exhibited by Auth.DesktopFailureKeepsLoading and Screens.DesktopLookupFailureRoute) | Auth.Handle |
