/**
 * The two decisions the desktop main process makes about its window
 * (Electron main/index.ts): which pages may open in an in-app popup, and
 * whether responses carry the content-security-policy header.
 */
module WindowPolicy {
  import opened Wrappers
  import opened Text

  /** The options of an allowed popup window. */
  datatype PopupOptions = PopupOptions(width: nat, height: nat, autoHideMenuBar: bool, nodeIntegration: bool, contextIsolation: bool)

  /** The window-open handler's answer. */
  datatype OpenAction = Allow(options: PopupOptions) | Deny

  const GooglePrefix: string := "https://accounts.google.com/"
  const AuthHandlerPath: string := "/__/auth/handler"
  const FirebaseHost: string := ".firebaseapp.com"

  /** The sign-in pages that open inside the app. */
  predicate IsAuthUrl(url: string) {
    StartsWith(url, GooglePrefix) || Contains(url, AuthHandlerPath) || Contains(url, FirebaseHost)
  }

  const AuthPopup: PopupOptions := PopupOptions(500, 700, true, false, true)

  /**
   * The window-open handler: an auth page opens in a 500 by 700 popup
   * without node integration and with context isolation; any other URL is
   * refused and handed to the system browser, which is the second result.
   */
  function OnWindowOpen(url: string): (r: (OpenAction, Option<string>))
    ensures r.0.Allow? <==> IsAuthUrl(url)
    ensures r.0.Allow? ==> r.0.options.width == 500 && r.0.options.height == 700
    ensures r.0.Allow? ==> !r.0.options.nodeIntegration && r.0.options.contextIsolation
    ensures r.1 == (if r.0.Deny? then Some(url) else None)
  {
    if IsAuthUrl(url) then (Allow(AuthPopup), None) else (Deny, Some(url))
  }

  /** Every URL under the Google accounts prefix is allowed in-app. */
  lemma GoogleAccountsAllowed(path: string)
    ensures OnWindowOpen(GooglePrefix + path).0 == Allow(AuthPopup)
  {
    assert StartsWith(GooglePrefix + path, GooglePrefix);
  }

  /**
   * The Firebase tests look for a substring anywhere in the URL, so a page
   * on any host is allowed in-app when its path or query mentions the
   * Firebase host name.
   */
  lemma FirebaseHostAnywhereAllowed(before: string, after: string)
    ensures OnWindowOpen(before + FirebaseHost + after).0.Allow?
  {
    var url := before + FirebaseHost + after;
    assert url[|before|..|before| + |FirebaseHost|] == FirebaseHost;
    assert OccursAt(url, FirebaseHost, |before|);
  }

  /** A URL that is neither a Google nor a Firebase page goes to the system browser. */
  lemma OtherUrlsOpenExternally(url: string)
    requires !StartsWith(url, GooglePrefix)
    requires forall i :: !OccursAt(url, AuthHandlerPath, i) && !OccursAt(url, FirebaseHost, i)
    ensures OnWindowOpen(url) == (Deny, Some(url))
  {
  }

  const ContentSecurityPolicy: string :=
    "default-src 'self'; "
    + "script-src 'self'; "
    + "style-src 'self' 'unsafe-inline'; "
    + "connect-src 'self' https://*.googleapis.com https://*.firebaseio.com wss://*.firebaseio.com https://firestore.googleapis.com https://identitytoolkit.googleapis.com https://securetoken.googleapis.com; "
    + "img-src 'self' data: blob: https://lh3.googleusercontent.com https://*.googleusercontent.com; "
    + "font-src 'self' data:;"

  /**
   * The response headers the renderer sees: outside development the
   * policy header is added to what the server sent; in development the
   * headers pass through untouched.
   */
  function ResponseHeaders(isDev: bool, headers: map<string, seq<string>>): (r: map<string, seq<string>>)
    ensures isDev ==> r == headers
    ensures !isDev ==> "Content-Security-Policy" in r && r["Content-Security-Policy"] == [ContentSecurityPolicy]
    ensures !isDev ==> forall k :: k in headers && k != "Content-Security-Policy" ==> k in r && r[k] == headers[k]
    ensures !isDev ==> r.Keys == headers.Keys + {"Content-Security-Policy"}
  {
    if isDev then headers else headers["Content-Security-Policy" := [ContentSecurityPolicy]]
  }

  /** The production policy allows scripts only from the app itself. */
  lemma ProductionScriptsSelfOnly(headers: map<string, seq<string>>)
    ensures Contains(ResponseHeaders(false, headers)["Content-Security-Policy"][0], "script-src 'self';")
  {
    var p := ContentSecurityPolicy;
    var pre := "default-src 'self'; ";
    assert p[|pre|..|pre| + |"script-src 'self';"|] == "script-src 'self';";
    assert OccursAt(p, "script-src 'self';", |pre|);
  }
}
