/**
 * The theme stores of both clients. A theme id is a style and a mode
 * written `style-mode`; the mobile client knows the styles `modern` and
 * `glass` (React-Native stores/theme-store.ts), the desktop client `glass`
 * and `minimal` (Electron stores/theme-store.ts), and both the modes
 * `dark` and `light`.
 */
module Themes {

  datatype Mode = Dark | Light

  function ModeName(m: Mode): string {
    match m
    case Dark => "dark"
    case Light => "light"
  }

  /** `mode === 'dark' ? 'light' : 'dark'`: the other mode. */
  function Flip(m: Mode): (r: Mode)
    ensures r != m
  {
    if m == Dark then Light else Dark
  }
}

/** The mobile theme store: a `theme` field replaced by the toggles and the cycle. */
module MobileTheme {
  import opened Themes

  datatype Style = Modern | Glass

  datatype Variant = Variant(style: Style, mode: Mode)

  function StyleName(s: Style): string {
    match s
    case Modern => "modern"
    case Glass => "glass"
  }

  /** The id the store keeps, `${style}-${mode}`. */
  function Name(v: Variant): string {
    StyleName(v.style) + "-" + ModeName(v.mode)
  }

  /** The four ids are distinct, so an id names exactly one variant. */
  lemma NameInjective(v: Variant, w: Variant)
    requires Name(v) == Name(w)
    ensures v == w
  {
    var a, b := Name(v), Name(w);
    assert a[0] == b[0];
    if v.style == w.style {
      var k := |StyleName(v.style)| + 1;
      assert a[k..] == ModeName(v.mode) && b[k..] == ModeName(w.mode);
    }
  }

  const Initial: Variant := Variant(Modern, Dark)

  /** The cycle order: modern-dark, modern-light, glass-dark, glass-light. */
  const Order: seq<Variant> := [Variant(Modern, Dark), Variant(Modern, Light), Variant(Glass, Dark), Variant(Glass, Light)]

  /** `order.indexOf(x)`: the first position of `x`, or -1. */
  function IndexOf(s: seq<Variant>, x: Variant): (r: int)
    ensures -1 <= r < |s|
    ensures r >= 0 ==> s[r] == x && x !in s[..r]
    ensures r == -1 <==> x !in s
  {
    if s == [] then -1
    else if s[0] == x then 0
    else
      var i := IndexOf(s[1..], x);
      assert s == [s[0]] + s[1..];
      if i == -1 then -1 else i + 1
  }

  /** `toggleMode`: the other mode, the same style. */
  function WithModeFlipped(v: Variant): (r: Variant)
    ensures r.style == v.style && r.mode != v.mode
  {
    Variant(v.style, Flip(v.mode))
  }

  /** `toggleStyle`: the other style, the same mode. */
  function WithStyleFlipped(v: Variant): (r: Variant)
    ensures r.mode == v.mode && r.style != v.style
  {
    Variant(if v.style == Glass then Modern else Glass, v.mode)
  }

  /** `cycleTheme`: the variant after the current one in the order, wrapping round. */
  function Next(v: Variant): (r: Variant)
    ensures r in Order
  {
    Order[(IndexOf(Order, v) + 1) % |Order|]
  }

  /** Each toggle undoes itself, and the two toggles commute. */
  lemma TogglesAreInvolutions(v: Variant)
    ensures WithModeFlipped(WithModeFlipped(v)) == v
    ensures WithStyleFlipped(WithStyleFlipped(v)) == v
    ensures WithModeFlipped(WithStyleFlipped(v)) == WithStyleFlipped(WithModeFlipped(v))
  {
  }

  /** Every variant is in the cycle order, so the cycle never falls back to the first entry by default. */
  lemma EveryVariantInOrder(v: Variant)
    ensures IndexOf(Order, v) >= 0
  {
    match v
    case Variant(Modern, Dark) => assert Order[0] == v;
    case Variant(Modern, Light) => assert Order[1] == v;
    case Variant(Glass, Dark) => assert Order[2] == v;
    case Variant(Glass, Light) => assert Order[3] == v;
  }

  /** The cycle goes modern-dark, modern-light, glass-dark, glass-light and back to modern-dark. */
  lemma CycleOrder()
    ensures Next(Variant(Modern, Dark)) == Variant(Modern, Light)
    ensures Next(Variant(Modern, Light)) == Variant(Glass, Dark)
    ensures Next(Variant(Glass, Dark)) == Variant(Glass, Light)
    ensures Next(Variant(Glass, Light)) == Variant(Modern, Dark)
  {
    assert IndexOf(Order, Variant(Modern, Dark)) == 0;
    assert IndexOf(Order, Variant(Modern, Light)) == 1;
    assert IndexOf(Order, Variant(Glass, Dark)) == 2;
    assert IndexOf(Order, Variant(Glass, Light)) == 3;
  }

  /** Four steps of the cycle come back to where they started. */
  lemma CycleFour(v: Variant)
    ensures Next(Next(Next(Next(v)))) == v
  {
    CycleOrder();
    match v
    case Variant(Modern, Dark) =>
    case Variant(Modern, Light) =>
    case Variant(Glass, Dark) =>
    case Variant(Glass, Light) =>
  }

  /** The store, holding one of the four variants. */
  class ThemeStore {
    var theme: Variant

    constructor ()
      ensures theme == Initial
    {
      theme := Initial;
    }

    method SetTheme(t: Variant)
      modifies this
      ensures theme == t
    {
      theme := t;
    }

    method ToggleMode()
      modifies this
      ensures theme == WithModeFlipped(old(theme))
    {
      var nextMode := if theme.mode == Dark then Light else Dark;
      theme := Variant(theme.style, nextMode);
    }

    method ToggleStyle()
      modifies this
      ensures theme == WithStyleFlipped(old(theme))
    {
      var nextStyle := if theme.style == Glass then Modern else Glass;
      theme := Variant(nextStyle, theme.mode);
    }

    method CycleTheme()
      modifies this
      ensures theme == Next(old(theme))
    {
      var idx := IndexOf(Order, theme);
      theme := Order[(idx + 1) % |Order|];
    }
  }
}

/**
 * The desktop theme store: every change writes the new id to the
 * document's `data-theme` attribute and to local storage under
 * `tmx-theme`, and the first theme is read back from there.
 */
module DesktopTheme {
  import opened Wrappers
  import opened Themes

  datatype Style = Glass | Minimal

  datatype ThemeId = ThemeId(style: Style, mode: Mode)

  function StyleName(s: Style): string {
    match s
    case Glass => "glass"
    case Minimal => "minimal"
  }

  function Name(t: ThemeId): string {
    StyleName(t.style) + "-" + ModeName(t.mode)
  }

  const StorageKey: string := "tmx-theme"

  const Default: ThemeId := ThemeId(Glass, Dark)

  /** The stored string compared against the four ids, in the order of the source's test. */
  function Parse(s: string): (r: Option<ThemeId>)
    ensures r.Some? ==> Name(r.value) == s
  {
    if s == "glass-dark" then Some(ThemeId(Glass, Dark))
    else if s == "glass-light" then Some(ThemeId(Glass, Light))
    else if s == "minimal-dark" then Some(ThemeId(Minimal, Dark))
    else if s == "minimal-light" then Some(ThemeId(Minimal, Light))
    else None
  }

  /** Every id is recognised when read back. */
  lemma ParseName(t: ThemeId)
    ensures Parse(Name(t)) == Some(t)
  {
  }

  /** `getInitialTheme`: the stored id when it is one of the four, else glass-dark. */
  function InitialTheme(stored: Option<string>): (r: ThemeId)
    ensures stored.Some? && Parse(stored.value).Some? ==> Name(r) == stored.value
    ensures stored.None? || Parse(stored.value).None? ==> r == Default
  {
    if stored.Some? && Parse(stored.value).Some? then Parse(stored.value).value else Default
  }

  /** The initial theme is the stored one exactly when the stored string is an id. */
  lemma InitialIsStoredIff(stored: string)
    ensures Name(InitialTheme(Some(stored))) == stored <==> exists t :: Name(t) == stored
  {
    if t :| Name(t) == stored {
      ParseName(t);
    }
  }

  /** `toggleMode`. */
  function WithModeFlipped(t: ThemeId): (r: ThemeId)
    ensures r.style == t.style && r.mode != t.mode
  {
    ThemeId(t.style, Flip(t.mode))
  }

  /** `toggleStyle`. */
  function WithStyleFlipped(t: ThemeId): (r: ThemeId)
    ensures r.mode == t.mode && r.style != t.style
  {
    ThemeId(if t.style == Glass then Minimal else Glass, t.mode)
  }

  /** Each toggle undoes itself, and the two toggles commute. */
  lemma TogglesAreInvolutions(t: ThemeId)
    ensures WithModeFlipped(WithModeFlipped(t)) == t
    ensures WithStyleFlipped(WithStyleFlipped(t)) == t
    ensures WithModeFlipped(WithStyleFlipped(t)) == WithStyleFlipped(WithModeFlipped(t))
  {
  }

  /**
   * The store, with the two places a theme is written: the document's
   * `data-theme` attribute and local storage.
   */
  class ThemeStore {
    var theme: ThemeId
    var dataTheme: string
    var storage: map<string, string>

    /** What is shown and what is saved is the current theme. */
    predicate Valid()
      reads this
    {
      dataTheme == Name(theme) && StorageKey in storage && storage[StorageKey] == Name(theme)
    }

    /** Loading the module: read the saved id, then apply it. */
    constructor (saved: map<string, string>)
      ensures Valid()
      ensures theme == InitialTheme(if StorageKey in saved then Some(saved[StorageKey]) else None)
      ensures storage == saved[StorageKey := Name(theme)]
    {
      var initialTheme := InitialTheme(if StorageKey in saved then Some(saved[StorageKey]) else None);
      theme := initialTheme;
      dataTheme := Name(initialTheme);
      storage := saved[StorageKey := Name(initialTheme)];
    }

    /** `applyTheme`: shows and saves `t`. */
    method Apply(t: ThemeId)
      modifies `dataTheme, `storage
      ensures dataTheme == Name(t) && storage == old(storage)[StorageKey := Name(t)]
    {
      dataTheme := Name(t);
      storage := storage[StorageKey := Name(t)];
    }

    method SetTheme(t: ThemeId)
      modifies this
      ensures Valid() && theme == t
      ensures storage == old(storage)[StorageKey := Name(t)]
    {
      Apply(t);
      theme := t;
    }

    method ToggleMode()
      modifies this
      ensures Valid() && theme == WithModeFlipped(old(theme))
      ensures storage == old(storage)[StorageKey := Name(theme)]
    {
      var newTheme := ThemeId(theme.style, if theme.mode == Dark then Light else Dark);
      Apply(newTheme);
      theme := newTheme;
    }

    method ToggleStyle()
      modifies this
      ensures Valid() && theme == WithStyleFlipped(old(theme))
      ensures storage == old(storage)[StorageKey := Name(theme)]
    {
      var newTheme := ThemeId(if theme.style == Glass then Minimal else Glass, theme.mode);
      Apply(newTheme);
      theme := newTheme;
    }
  }

  /** After a restart the store comes back with the theme it last saved. */
  lemma RestartRestoresTheme(t: ThemeId, saved: map<string, string>)
    requires StorageKey in saved && saved[StorageKey] == Name(t)
    ensures InitialTheme(Some(saved[StorageKey])) == t
  {
    ParseName(t);
  }
}
