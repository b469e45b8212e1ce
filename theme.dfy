/**
 * The theme controller: one theme string kept in step in three places, the
 * controller's own field, the `data-theme` attribute of the document root
 * and the `theme` entry of the browser's key-value preference store.
 */
module Theme {

  /** Key of the preference in the store. */
  const ThemeKey := "theme"
  const Light := "light"
  const Dark := "dark"

  /**
   * The theme chosen at page load: the stored value, unless the store has
   * none or an empty one (both are falsy for `||`), in which case "light".
   * A non-empty stored value is taken verbatim, even if it is neither
   * "light" nor "dark".
   */
  function InitialTheme(store: map<string, string>): (t: string)
    ensures t != ""
    ensures ThemeKey in store && store[ThemeKey] != "" ==> t == store[ThemeKey]
    ensures ThemeKey !in store || store[ThemeKey] == "" ==> t == Light
  {
    if ThemeKey in store && store[ThemeKey] != "" then store[ThemeKey] else Light
  }

  /** The theme after one click: "light" becomes "dark", everything else "light". */
  function Toggled(t: string): (r: string)
    ensures r == Light || r == Dark
    ensures r == Dark <==> t == Light
  {
    if t == Light then Dark else Light
  }

  /** The theme after `clicks` clicks on the toggle, starting from `t`. */
  function AfterClicks(t: string, clicks: nat): string
  {
    if clicks == 0 then t else Toggled(AfterClicks(t, clicks - 1))
  }

  /** Whatever was stored, a theme that was applied is read back on the next page load. */
  lemma ReloadRestores(store: map<string, string>, t: string)
    requires t != ""
    ensures InitialTheme(store[ThemeKey := t]) == t
  {
  }

  /** Two clicks from "light" or "dark" give back the starting theme. */
  lemma ToggleTwiceKnown(t: string)
    requires t == Light || t == Dark
    ensures Toggled(Toggled(t)) == t
  {
  }

  /** An unrecognised stored theme is not restored: one click gives "light", two give "dark". */
  lemma ToggleTwiceUnknown(t: string)
    requires t != Light && t != Dark
    ensures Toggled(t) == Light && Toggled(Toggled(t)) == Dark
  {
  }

  /**
   * From "light" or "dark", the theme after any number of clicks depends
   * only on their parity.
   */
  lemma {:induction false} AfterClicksParityKnown(t: string, clicks: nat)
    requires t == Light || t == Dark
    ensures AfterClicks(t, clicks) == if clicks % 2 == 0 then t else Toggled(t)
  {
    if clicks > 0 {
      AfterClicksParityKnown(t, clicks - 1);
    }
  }

  /**
   * From an unrecognised theme, the first click lands on "light" and the
   * theme alternates from there; the starting theme never comes back.
   */
  lemma {:induction false} AfterClicksParityUnknown(t: string, clicks: nat)
    requires t != Light && t != Dark
    requires clicks >= 1
    ensures AfterClicks(t, clicks) == if clicks % 2 == 1 then Light else Dark
  {
    if clicks > 1 {
      AfterClicksParityUnknown(t, clicks - 1);
    }
  }

  class ThemeManager {
    /** The controller's current theme. */
    var theme: string
    /** The `data-theme` attribute of the document root. */
    var attr: string
    /** The browser's preference store. */
    var store: map<string, string>

    /** Field, attribute and stored preference agree. */
    ghost predicate InStep()
      reads this
    {
      ThemeKey in store && store[ThemeKey] == theme && attr == theme
    }

    /** Reads the stored preference and applies it at once. */
    constructor (storage: map<string, string>)
      ensures theme == InitialTheme(storage)
      ensures InStep()
      ensures store == storage[ThemeKey := theme]
    {
      theme := InitialTheme(storage);
      attr := "";
      store := storage;
      new;
      ApplyTheme(theme);
    }

    /** Writes the theme to the root attribute, the field and the store. */
    method ApplyTheme(t: string)
      modifies this
      ensures theme == t && attr == t
      ensures store == old(store)[ThemeKey := t]
      ensures InStep()
    {
      attr := t;
      theme := t;
      store := store[ThemeKey := t];
    }

    /** The click handler of the theme toggle. */
    method Toggle()
      modifies this
      ensures theme == Toggled(old(theme))
      ensures attr == theme
      ensures store == old(store)[ThemeKey := theme]
      ensures InStep()
    {
      var newTheme := if theme == Light then Dark else Light;
      ApplyTheme(newTheme);
    }
  }
}
