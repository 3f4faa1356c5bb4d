/**
 * Start-up of the Firebase client on both sides (Electron lib/firebase.ts,
 * React-Native lib/firebase.ts): the configuration is checked for its
 * required fields before anything is initialised, the mobile client reuses
 * an app that already exists, and a second auth initialisation falls back
 * to the existing auth instance.
 */
module FirebaseConfig {
  import opened Wrappers
  import opened Text

  /** The six configuration values, each possibly unset. */
  datatype Config = Config(
    apiKey: Option<string>,
    authDomain: Option<string>,
    projectId: Option<string>,
    storageBucket: Option<string>,
    messagingSenderId: Option<string>,
    appId: Option<string>)

  /** A value is missing when it is falsy: unset or the empty string. */
  predicate Present(v: Option<string>) {
    v.Some? && v.value != []
  }

  /** The configuration's keys. */
  datatype FieldName = ApiKey | AuthDomain | ProjectId | StorageBucket | MessagingSenderId | AppId

  /** How a key is spelt in the error message. */
  function KeyName(f: FieldName): string {
    match f
    case ApiKey => "apiKey"
    case AuthDomain => "authDomain"
    case ProjectId => "projectId"
    case StorageBucket => "storageBucket"
    case MessagingSenderId => "messagingSenderId"
    case AppId => "appId"
  }

  /** `firebaseConfig[field]`. */
  function Field(c: Config, f: FieldName): Option<string> {
    match f
    case ApiKey => c.apiKey
    case AuthDomain => c.authDomain
    case ProjectId => c.projectId
    case StorageBucket => c.storageBucket
    case MessagingSenderId => c.messagingSenderId
    case AppId => c.appId
  }

  const RequiredFields: seq<FieldName> := [ApiKey, AuthDomain, ProjectId, AppId]

  /** `fields.filter((field) => !firebaseConfig[field])`. */
  function MissingAmong(c: Config, fields: seq<FieldName>): seq<FieldName> {
    if fields == [] then []
    else (if !Present(Field(c, fields[0])) then [fields[0]] else []) + MissingAmong(c, fields[1..])
  }

  /** The filter keeps exactly the fields whose value is falsy. */
  lemma {:induction false} MissingAmongMembers(c: Config, fields: seq<FieldName>, x: FieldName)
    ensures x in MissingAmong(c, fields) <==> x in fields && !Present(Field(c, x))
  {
    if fields != [] {
      MissingAmongMembers(c, fields[1..], x);
      assert fields == [fields[0]] + fields[1..];
    }
  }

  function MissingFields(c: Config): (r: seq<FieldName>) {
    MissingAmong(c, RequiredFields)
  }

  /** The field names as written in the message. */
  function KeyNames(fs: seq<FieldName>): (r: seq<string>)
    ensures |r| == |fs| && forall i {:trigger r[i]} :: 0 <= i < |fs| ==> r[i] == KeyName(fs[i])
  {
    if fs == [] then [] else [KeyName(fs[0])] + KeyNames(fs[1..])
  }

  /** The one-field list when `f` is missing, else nothing. */
  function IfMissing(c: Config, f: FieldName): (r: seq<FieldName>)
    ensures r == [] <==> Present(Field(c, f))
  {
    if Present(Field(c, f)) then [] else [f]
  }

  /**
   * The missing fields are exactly the unset or empty required ones, in the
   * order apiKey, authDomain, projectId, appId.
   */
  lemma MissingInOrder(c: Config)
    ensures MissingFields(c) ==
              IfMissing(c, ApiKey) + (IfMissing(c, AuthDomain) + (IfMissing(c, ProjectId) + IfMissing(c, AppId)))
  {
    MissingStep(c, AppId, []);
    assert [AppId] + [] == [AppId];
    MissingStep(c, ProjectId, [AppId]);
    assert [ProjectId] + [AppId] == [ProjectId, AppId];
    MissingStep(c, AuthDomain, [ProjectId, AppId]);
    assert [AuthDomain] + [ProjectId, AppId] == [AuthDomain, ProjectId, AppId];
    MissingStep(c, ApiKey, [AuthDomain, ProjectId, AppId]);
    assert [ApiKey] + [AuthDomain, ProjectId, AppId] == RequiredFields;
  }

  /** One step of the filter. */
  lemma MissingStep(c: Config, x: FieldName, rest: seq<FieldName>)
    ensures MissingAmong(c, [x] + rest) == IfMissing(c, x) + MissingAmong(c, rest)
  {
    assert ([x] + rest)[1..] == rest;
  }

  /** The storage bucket and the sender id are never required. */
  lemma OptionalFieldsIgnored(c: Config, bucket: Option<string>, sender: Option<string>)
    ensures MissingFields(c.(storageBucket := bucket, messagingSenderId := sender)) == MissingFields(c)
  {
    MissingInOrder(c);
    MissingInOrder(c.(storageBucket := bucket, messagingSenderId := sender));
  }

  /** The module either loads or throws an `Error` with a message. */
  datatype Startup = Ready | Threw(message: string)

  /** Loading the desktop module: throws with every missing field named when any is missing. */
  function DesktopStartup(c: Config): (r: Startup)
    ensures r.Threw? <==> !(Present(c.apiKey) && Present(c.authDomain) && Present(c.projectId) && Present(c.appId))
    ensures r.Threw? ==> MissingFields(c) != []
  {
    MissingInOrder(c);
    var missingFields := MissingFields(c);
    if |missingFields| > 0 then
      Threw("Firebase configuration error: Missing required environment variables for fields: "
            + Join(KeyNames(missingFields), ", ")
            + ". Please ensure all VITE_FIREBASE_* environment variables are properly set.")
    else Ready
  }

  /** Loading the mobile module: the same check with a shorter message. */
  function MobileStartup(c: Config): (r: Startup)
    ensures r.Threw? <==> !(Present(c.apiKey) && Present(c.authDomain) && Present(c.projectId) && Present(c.appId))
    ensures r.Threw? ==> MissingFields(c) != []
  {
    MissingInOrder(c);
    var missingFields := MissingFields(c);
    if |missingFields| > 0 then Threw("Firebase configuration error. Missing fields: " + Join(KeyNames(missingFields), ", "))
    else Ready
  }

  /** Both clients refuse the same configurations. */
  lemma ClientsAgree(c: Config)
    ensures DesktopStartup(c).Threw? <==> MobileStartup(c).Threw?
  {
  }

  /** A single missing field is named on its own in the message. */
  lemma OneMissingNamed(c: Config)
    requires !Present(c.projectId) && Present(c.apiKey) && Present(c.authDomain) && Present(c.appId)
    ensures MobileStartup(c) == Threw("Firebase configuration error. Missing fields: projectId")
  {
    MissingInOrder(c);
    assert KeyNames([ProjectId]) == ["projectId"];
  }

  /** An app instance; `config` is the configuration it was created with. */
  datatype App = App(config: Config)

  /** `getApps().length ? getApp() : initializeApp(firebaseConfig)`. */
  function MobileApp(existing: seq<App>, c: Config): (r: App)
    ensures existing != [] ==> r == existing[0]
    ensures existing == [] ==> r.config == c
  {
    if |existing| > 0 then existing[0] else App(c)
  }

  /** Reloading the module keeps the app the first load created. */
  lemma ReloadReusesApp(c: Config, c2: Config)
    ensures MobileApp([MobileApp([], c)], c2) == MobileApp([], c)
  {
  }

  /** Where the mobile auth instance comes from. */
  datatype AuthSource = PersistentAuth | ExistingAuth | Rethrown(error: Thrown)

  /**
   * The auth initialisation: `initializeAuth` with persistence, unless it
   * threw; an `Error` whose message contains "already-initialized" falls
   * back to `getAuth(app)`, anything else is thrown again.
   */
  function MobileAuth(initError: Option<Thrown>): (r: AuthSource)
    ensures initError.None? <==> r == PersistentAuth
    ensures r == ExistingAuth <==>
              initError.Some? && initError.value.ErrorObject? && Contains(initError.value.message, "already-initialized")
    ensures r.Rethrown? ==> r.error == initError.value
  {
    if initError.None? then PersistentAuth
    else if initError.value.ErrorObject? && Contains(initError.value.message, "already-initialized") then ExistingAuth
    else Rethrown(initError.value)
  }

  /** A refresh that finds auth initialised, whatever surrounds the code in the message, keeps the existing instance. */
  lemma AlreadyInitializedFallsBack(before: string, after: string)
    ensures MobileAuth(Some(ErrorObject(before + "already-initialized" + after))) == ExistingAuth
  {
    var m := before + "already-initialized" + after;
    assert m[|before|..|before| + |"already-initialized"|] == "already-initialized";
    assert OccursAt(m, "already-initialized", |before|);
  }
}
