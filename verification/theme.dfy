/**
 * The dark/light theme owned by `App`: resolution of the initial value from
 * the saved preference or the operating-system preference, the effect that
 * writes it through to `localStorage` and to the classes of the document
 * root, and the toggle the header's switch calls.
 */
module Theme {
  import opened Js

  const StorageKey := "portfolio-theme"
  const DarkClass := "dark-theme"
  const LightClass := "light-theme"

  /** What `window.matchMedia('(prefers-color-scheme: dark)')` offers: no
      `matchMedia` at all, or the query's `matches`. */
  datatype MediaQuery = NoMatchMedia | MatchMedia(matches: bool)

  /** The JavaScript value held by the `darkMode` state. Besides the two
      booleans it can be `undefined`, which is what `window.matchMedia && …`
      evaluates to when `matchMedia` is missing. */
  datatype Flag = False | True | Undefined

  /** Every use of `darkMode` is a truthiness test. */
  predicate IsDark(f: Flag)
  {
    f == True
  }

  function FromBool(b: bool): (f: Flag)
    ensures f != Undefined && (IsDark(f) <==> b)
  {
    if b then True else False
  }

  /** JavaScript `!`: always a boolean, and `!undefined` is `true`. */
  function Not(f: Flag): (r: Flag)
    ensures r != Undefined && r != f
    ensures IsDark(r) <==> !IsDark(f)
  {
    if IsDark(f) then False else True
  }

  /** "dark" or "light", the two values the app stores. */
  function ThemeName(dark: bool): (s: string)
    ensures s != ""
    ensures s == "dark" <==> dark
  {
    if dark then "dark" else "light"
  }

  /** `systemPrefersDark`. */
  function SystemPrefersDark(m: MediaQuery): (r: Flag)
    ensures IsDark(r) <==> m == MatchMedia(true)
    ensures r == Undefined <==> m.NoMatchMedia?
  {
    match m
    case NoMatchMedia => Undefined
    case MatchMedia(b) => FromBool(b)
  }

  /** The value the first effect passes to `setDarkMode`: a truthy saved
      string decides, anything else defers to the operating system. */
  function ResolveInitial(saved: Nullable<string>, media: MediaQuery): (r: Flag)
    ensures Truthy(saved) ==> r != Undefined && (IsDark(r) <==> saved.value == "dark")
    ensures !Truthy(saved) ==> (IsDark(r) <==> media == MatchMedia(true))
  {
    if Truthy(saved) then FromBool(saved.value == "dark") else SystemPrefersDark(media)
  }

  /** A non-empty saved theme wins whatever the operating system prefers. */
  lemma SavedThemeWins(saved: string, media1: MediaQuery, media2: MediaQuery)
    requires saved != ""
    ensures ResolveInitial(Value(saved), media1) == ResolveInitial(Value(saved), media2)
    ensures IsDark(ResolveInitial(Value(saved), media1)) <==> saved == "dark"
  {
  }

  /** Without a saved theme (absent or empty), the result is the operating
      system's preference, and a missing `matchMedia` reads as light. */
  lemma MissingSavedFollowsSystem(saved: Nullable<string>, media: MediaQuery)
    requires saved.Null? || saved.value == ""
    ensures ResolveInitial(saved, media) == SystemPrefersDark(media)
    ensures media.NoMatchMedia? ==> !IsDark(ResolveInitial(saved, media))
  {
  }

  /** The part of the browser the theme touches. */
  datatype Page = Page(darkMode: Flag, storage: map<string, string>, rootClasses: set<string>)

  /** Storage and document root mirror `darkMode`: the saved value names the
      theme and exactly one of the two theme classes is on the root. */
  predicate Synced(p: Page)
  {
    && StorageKey in p.storage
    && p.storage[StorageKey] == ThemeName(IsDark(p.darkMode))
    && (DarkClass in p.rootClasses <==> IsDark(p.darkMode))
    && (LightClass in p.rootClasses <==> !IsDark(p.darkMode))
  }

  /** The storage write the second effect performs for a given state. */
  function SyncWrite(darkMode: Flag): (w: StorageAccess)
    ensures w.Write? && w.key == StorageKey
    ensures w.value == "dark" <==> IsDark(darkMode)
  {
    Write(StorageKey, ThemeName(IsDark(darkMode)))
  }

  /** The second effect: write the theme through and swap the root classes. */
  function Sync(p: Page): (r: Page)
    ensures Synced(r)
    ensures r.darkMode == p.darkMode
    ensures r.storage.Keys == p.storage.Keys + {StorageKey}
    ensures forall k :: k in p.storage && k != StorageKey ==> r.storage[k] == p.storage[k]
    ensures r.rootClasses - {DarkClass, LightClass} == p.rootClasses - {DarkClass, LightClass}
  {
    var w := SyncWrite(p.darkMode);
    var classes :=
      if IsDark(p.darkMode) then p.rootClasses + {DarkClass} - {LightClass}
      else p.rootClasses + {LightClass} - {DarkClass};
    Page(p.darkMode, p.storage[w.key := w.value], classes)
  }

  /** Re-running the effect on a synchronised page changes nothing. */
  lemma SyncedIsFixpoint(p: Page)
    requires Synced(p)
    ensures Sync(p) == p
  {
    var r := Sync(p);
    assert r.storage == p.storage;
    assert r.rootClasses == p.rootClasses;
  }

  /** `toggleDarkMode`, followed by the effect the change triggers (the new
      value always differs from the old one, so the effect always runs). */
  function Toggle(p: Page): (r: Page)
    ensures IsDark(r.darkMode) <==> !IsDark(p.darkMode)
    ensures r.darkMode != p.darkMode
    ensures Synced(r)
    ensures r.rootClasses - {DarkClass, LightClass} == p.rootClasses - {DarkClass, LightClass}
  {
    Sync(p.(darkMode := Not(p.darkMode)))
  }

  /** `n` consecutive toggles. */
  function Toggles(p: Page, n: nat): Page
  {
    if n == 0 then p else Toggle(Toggles(p, n - 1))
  }

  /** An even number of toggles keeps the theme, an odd number flips it, and
      any positive number leaves the page synchronised. */
  lemma {:induction false} ToggleParity(p: Page, n: nat)
    ensures IsDark(Toggles(p, n).darkMode) <==> (if n % 2 == 0 then IsDark(p.darkMode) else !IsDark(p.darkMode))
    ensures n > 0 ==> Synced(Toggles(p, n))
  {
    if n > 0 {
      ToggleParity(p, n - 1);
    }
  }

  /** On a synchronised page holding a boolean, two toggles restore the page
      exactly: state, storage and root classes. */
  lemma ToggleTwiceRestores(p: Page)
    requires Synced(p) && p.darkMode != Undefined
    ensures Toggle(Toggle(p)) == p
  {
    var q := Toggle(Toggle(p));
    assert q.darkMode == p.darkMode;
    assert q.storage == p.storage;
    assert q.rootClasses == p.rootClasses;
  }

  /** An access to `localStorage`, as the mount sequence performs them. */
  datatype StorageAccess = Read(key: string) | Write(key: string, value: string)

  datatype Mounted = Mounted(page: Page, log: seq<StorageAccess>)

  function Lookup(storage: map<string, string>, key: string): (r: Nullable<string>)
    ensures r.Value? <==> key in storage
    ensures r.Value? ==> r.value == storage[key]
  {
    if key in storage then Value(storage[key]) else Null
  }

  /** Mounting `App`: the state starts at `false`; the effects run in
      declaration order, so the first reads the saved theme and requests the
      resolved value, then the second writes the initial `false` through; the
      second runs again only if the resolved value differs from `false`. */
  function Mount(storage: map<string, string>, classes: set<string>, media: MediaQuery): (m: Mounted)
    ensures 2 <= |m.log| <= 3
    ensures m.log[0] == Read(StorageKey)
    ensures forall i :: 1 <= i < |m.log| ==> m.log[i].Write? && m.log[i].key == StorageKey
    ensures m.log[1] == Write(StorageKey, "light")
    ensures m.page.darkMode == ResolveInitial(Lookup(storage, StorageKey), media)
    ensures Synced(m.page)
    ensures m.page.storage[StorageKey] == m.log[|m.log| - 1].value
    ensures |m.log| == 3 <==> ResolveInitial(Lookup(storage, StorageKey), media) != False
    ensures |m.log| == 3 ==> m.log[2] == SyncWrite(m.page.darkMode)
    ensures forall k :: k in storage && k != StorageKey ==> k in m.page.storage && m.page.storage[k] == storage[k]
  {
    var read := Read(StorageKey);
    var resolved := ResolveInitial(Lookup(storage, StorageKey), media);
    var initial := Page(False, storage, classes);
    var first := Sync(initial);
    if resolved == False then
      Mounted(first, [read, SyncWrite(False)])
    else
      Mounted(Sync(first.(darkMode := resolved)), [read, SyncWrite(False), SyncWrite(resolved)])
  }

  /** Reloading after a mount restores the same theme whatever the operating
      system prefers by then: the mount always leaves a truthy saved value. */
  lemma ReloadKeepsTheme(storage: map<string, string>, classes: set<string>, media: MediaQuery, media': MediaQuery)
    ensures var m := Mount(storage, classes, media);
            var m' := Mount(m.page.storage, m.page.rootClasses, media');
            m'.page.darkMode != Undefined && (IsDark(m'.page.darkMode) <==> IsDark(m.page.darkMode))
  {
    var m := Mount(storage, classes, media);
    assert Lookup(m.page.storage, StorageKey) == Value(ThemeName(IsDark(m.page.darkMode)));
  }

  /** A saved theme survives the initial write of "light": after mounting,
      storage again says "dark" exactly when "dark" was saved. */
  lemma MountPreservesSavedTheme(storage: map<string, string>, classes: set<string>, media: MediaQuery)
    requires StorageKey in storage && storage[StorageKey] != ""
    ensures Mount(storage, classes, media).page.storage[StorageKey] == "dark" <==> storage[StorageKey] == "dark"
  {
  }

  /** Classes of the wrapper `div`. */
  function AppClasses(darkMode: Flag): (r: seq<string>)
    ensures "app" in r
    ensures DarkClass in r <==> IsDark(darkMode)
    ensures LightClass in r <==> !IsDark(darkMode)
  {
    Conditional("app", IsDark(darkMode), DarkClass, LightClass)
  }

  /** On a synchronised page the wrapper and the document root carry the same
      theme class. */
  lemma WrapperAgreesWithRoot(p: Page)
    requires Synced(p)
    ensures DarkClass in AppClasses(p.darkMode) <==> DarkClass in p.rootClasses
    ensures LightClass in AppClasses(p.darkMode) <==> LightClass in p.rootClasses
  {
  }
}
