/** The theme provider: picks the initial theme from storage or the system preference,
    keeps exactly one of "light"/"dark" on the document root, and persists the theme
    once mounted. Browser storage, the media query and the root's class list are plain
    values here. */
module ThemeContext {
  import opened Wrappers

  datatype Theme = Light | Dark

  const StorageKey: string := "theme"

  function Name(t: Theme): string
  {
    match t
    case Light => "light"
    case Dark => "dark"
  }

  function Other(t: Theme): Theme
  {
    match t
    case Light => Dark
    case Dark => Light
  }

  /** `localStorage.getItem(key)`: the stored value when the key is present, `null` when
      it is absent. */
  function GetItem(storage: map<string, string>, key: string): (r: Option<string>)
    ensures r.Some? <==> key in storage
    ensures r.Some? ==> r.value == storage[key]
  {
    if key in storage then Some(storage[key]) else None
  }

  /** `storedTheme && ["light", "dark"].includes(storedTheme)`: a stored value is adopted
      exactly when it is "light" or "dark". */
  function StoredTheme(stored: Option<string>): (t: Option<Theme>)
    ensures t == Some(Light) <==> stored == Some("light")
    ensures t == Some(Dark) <==> stored == Some("dark")
  {
    match stored
    case Some(s) => if s == "light" then Some(Light) else if s == "dark" then Some(Dark) else None
    case None => None
  }

  /** The theme after the setup effect, starting from the default "light": a valid stored
      theme wins; otherwise "dark" exactly when the system prefers dark. */
  function InitialTheme(stored: Option<string>, prefersDark: bool): (t: Theme)
    ensures StoredTheme(stored).Some? ==> t == StoredTheme(stored).value
    ensures StoredTheme(stored).None? ==> (t == Dark <==> prefersDark)
  {
    match StoredTheme(stored)
    case Some(s) => s
    case None => if prefersDark then Dark else Light
  }

  /** `classList.remove("light", "dark"); classList.add(theme)`: the root gets the theme's
      class, loses the other one, and keeps every unrelated class. */
  function AppliedClasses(classes: set<string>, t: Theme): (r: set<string>)
    ensures Name(t) in r && Name(Other(t)) !in r
    ensures forall x :: x != "light" && x != "dark" ==> (x in r <==> x in classes)
  {
    classes - {"light", "dark"} + {Name(t)}
  }

  /** The storage after the apply effect: untouched before mount; afterwards "theme" holds
      the theme's name and every other key is unchanged. */
  function Persisted(storage: map<string, string>, mounted: bool, t: Theme): (r: map<string, string>)
    ensures !mounted ==> r == storage
    ensures mounted ==> StorageKey in r && r[StorageKey] == Name(t)
    ensures forall k :: k != StorageKey ==> (k in r <==> k in storage) && (k in r ==> r[k] == storage[k])
  {
    if mounted then storage[StorageKey := Name(t)] else storage
  }

  /** A persisted theme is what the next visit starts with, whatever the system
      preference. */
  lemma PersistRoundTrip(storage: map<string, string>, t: Theme, prefersDark: bool)
    ensures InitialTheme(GetItem(Persisted(storage, true, t), StorageKey), prefersDark) == t
  {
  }

  /** The value the provider hands to its consumers (the `setTheme` callback is the
      provider's `SetTheme` method). */
  datatype ThemeContextValue = ThemeContextValue(theme: Theme)

  const OutsideProvider: string := "useTheme must be used within a ThemeProvider"

  /** `useTheme`: fails outside a provider, and otherwise returns the provider's value. */
  function UseTheme(context: Option<ThemeContextValue>): (r: Result<ThemeContextValue>)
    ensures r.Failure? <==> context.None?
    ensures r.Failure? ==> r.error == OutsideProvider
    ensures r.Success? ==> context == Some(r.value)
  {
    match context
    case None => Failure(OutsideProvider)
    case Some(v) => Success(v)
  }

  /** The provider's state and the two browser objects its effects touch. */
  class ThemeProvider {
    var theme: Theme
    var mounted: bool
    var rootClasses: set<string>
    var storage: map<string, string>

    constructor (classes: set<string>, store: map<string, string>)
      ensures theme == Light && !mounted
      ensures rootClasses == classes && storage == store
    {
      theme := Light;
      mounted := false;
      rootClasses := classes;
      storage := store;
    }

    /** The setup effect: adopt a valid stored theme, else switch to dark when the system
        prefers it, else keep the current theme; then mark the provider mounted. */
    method InitialSetup(prefersDark: bool)
      modifies this
      ensures match StoredTheme(GetItem(storage, StorageKey))
              case Some(s) => theme == s
              case None => theme == if prefersDark then Dark else old(theme)
      ensures mounted
      ensures rootClasses == old(rootClasses) && storage == old(storage)
    {
      var stored := GetItem(storage, StorageKey);
      if stored == Some("light") || stored == Some("dark") {
        theme := if stored.value == "light" then Light else Dark;
      } else if prefersDark {
        theme := Dark;
      }
      mounted := true;
    }

    /** The apply effect: swap the root's theme class, and write storage when mounted. */
    method ApplyTheme()
      modifies this
      ensures rootClasses == AppliedClasses(old(rootClasses), theme)
      ensures storage == Persisted(old(storage), mounted, theme)
      ensures theme == old(theme) && mounted == old(mounted)
    {
      rootClasses := rootClasses - {"light", "dark"};
      rootClasses := rootClasses + {Name(theme)};
      if mounted {
        storage := storage[StorageKey := Name(theme)];
      }
    }

    /** `setTheme`. */
    method SetTheme(t: Theme)
      modifies this
      ensures theme == t && Value() == ThemeContextValue(t)
      ensures mounted == old(mounted) && rootClasses == old(rootClasses) && storage == old(storage)
    {
      theme := t;
    }

    /** The value the provider hands to its consumers. */
    function Value(): ThemeContextValue
      reads this
    {
      ThemeContextValue(theme)
    }
  }

  /** Page load. React runs the first commit's effects in declaration order: the setup
      effect reads storage and only queues its `setTheme`/`setMounted` updates, so the
      apply effect of that commit still sees the default "light", unmounted state and
      writes no storage; after the re-render the apply effect runs again with the new
      state. Here the queued updates are applied by `InitialSetup` after the first
      `ApplyTheme`. The end state is the same, because `InitialSetup` touches neither the
      class list nor storage, and the unmounted `ApplyTheme` writes nothing, so the setup
      reads the storage the page loaded with. Afterwards the theme is the resolved initial
      theme, the root carries exactly that theme's class, storage holds it, and a
      consumer's `useTheme` receives it. */
  method Startup(classes: set<string>, store: map<string, string>, prefersDark: bool)
    returns (p: ThemeProvider)
    ensures p.theme == InitialTheme(GetItem(store, StorageKey), prefersDark)
    ensures p.mounted
    ensures Name(p.theme) in p.rootClasses && Name(Other(p.theme)) !in p.rootClasses
    ensures forall x :: x != "light" && x != "dark" ==> (x in p.rootClasses <==> x in classes)
    ensures GetItem(p.storage, StorageKey) == Some(Name(p.theme))
    ensures UseTheme(Some(p.Value())) == Success(ThemeContextValue(p.theme))
  {
    p := new ThemeProvider(classes, store);
    p.ApplyTheme();
    assert p.storage == store;
    p.InitialSetup(prefersDark);
    p.ApplyTheme();
  }
}
