/**
 * The theme switch present on every page: the `data-theme` attribute of the
 * body, the toggle icon's class list and the `theme` key of local storage,
 * set once on load and updated together on each click.
 */
module Theme {
  import opened Wrappers
  import opened Storage

  const ThemeKey: string := "theme"
  const Sun: string := "fa-sun"
  const Moon: string := "fa-moon"

  /**
   * The theme applied on load: a truthy stored value verbatim (even one that
   * is neither 'light' nor 'dark'); otherwise 'dark' when the system prefers
   * a dark scheme, 'light' when it does not.
   */
  function InitialTheme(storedTheme: Option<string>, prefersDark: bool): (r: string)
    ensures Truthy(storedTheme) ==> r == storedTheme.value
    ensures !Truthy(storedTheme) ==> r == (if prefersDark then "dark" else "light")
    ensures r != ""
  {
    if Truthy(storedTheme) then storedTheme.value
    else if prefersDark then "dark"
    else "light"
  }

  /** The click handler's `currentTheme === 'light' ? 'dark' : 'light'`. */
  function NextTheme(current: string): (r: string)
    ensures r == "dark" <==> current == "light"
    ensures r == "light" <==> current != "light"
    ensures r != current
  {
    if current == "light" then "dark" else "light"
  }

  /**
   * The icon's class list after `updateToggleIcon(theme)`: the sun for the
   * dark theme and the moon for anything else, the other one removed, every
   * other class kept.
   */
  function IconClasses(classes: set<string>, theme: string): (r: set<string>)
    ensures theme == "dark" ==> Sun in r && Moon !in r
    ensures theme != "dark" ==> Moon in r && Sun !in r
    ensures forall c :: c != Sun && c != Moon ==> (c in r <==> c in classes)
  {
    if theme == "dark" then classes - {Moon} + {Sun}
    else classes - {Sun} + {Moon}
  }

  /** After one click the theme is 'light' or 'dark', and two more clicks bring it back. */
  lemma TogglesCycle(t: string)
    ensures NextTheme(t) == "light" || NextTheme(t) == "dark"
    ensures NextTheme(NextTheme(NextTheme(t))) == NextTheme(t)
  {
  }

  /** On 'light' and 'dark', two clicks restore the theme. */
  lemma ToggleTwiceRestores(t: string)
    requires t == "light" || t == "dark"
    ensures NextTheme(NextTheme(t)) == t
  {
  }

  /** A theme written by a click is the theme the next page load applies, whatever the system prefers. */
  lemma ClickedThemeSurvivesReload(current: string, prefersDark: bool)
    ensures InitialTheme(Some(NextTheme(current)), prefersDark) == NextTheme(current)
  {
  }

  /** A page's theme state: the body attribute, the icon element (if the page has one) and the store. */
  class ThemePage {
    var dataTheme: string
    var iconClasses: set<string>
    const hasIcon: bool
    const hasToggle: bool
    const store: LocalStorage<string>

    /** The icon shows the sun iff the theme is 'dark'. */
    predicate IconAgrees()
      reads this
    {
      hasIcon ==> (Sun in iconClasses <==> dataTheme == "dark") && (Moon in iconClasses <==> dataTheme != "dark")
    }

    /**
     * The `DOMContentLoaded` handler: reads the stored theme and the system
     * preference, applies the initial theme and sets the icon for it. Storage
     * is read, not written.
     */
    constructor Load(store: LocalStorage<string>, prefersDark: bool, hasToggle: bool, hasIcon: bool, iconClasses: set<string>)
      ensures this.store == store && this.hasToggle == hasToggle && this.hasIcon == hasIcon
      ensures dataTheme == InitialTheme(if ThemeKey in store.entries then Some(store.entries[ThemeKey]) else None, prefersDark)
      ensures this.iconClasses == if hasIcon then IconClasses(iconClasses, dataTheme) else iconClasses
      ensures IconAgrees()
    {
      var storedTheme := if ThemeKey in store.entries then Some(store.entries[ThemeKey]) else None;
      this.store := store;
      this.hasToggle := hasToggle;
      this.hasIcon := hasIcon;
      var theme := InitialTheme(storedTheme, prefersDark);
      dataTheme := theme;
      this.iconClasses := if hasIcon then IconClasses(iconClasses, theme) else iconClasses;
    }

    /** `updateToggleIcon(theme)`: nothing happens on a page without the icon element. */
    method UpdateToggleIcon(theme: string)
      modifies this`iconClasses
      ensures iconClasses == if hasIcon then IconClasses(old(iconClasses), theme) else old(iconClasses)
    {
      if hasIcon {
        iconClasses := IconClasses(iconClasses, theme);
      }
    }

    /**
     * A click on the toggle: flips the theme, writes it to the attribute and
     * under `theme` in storage, and updates the icon. Without a toggle button
     * no handler is attached and a click changes nothing.
     */
    method Click()
      modifies this, store
      ensures hasToggle ==> dataTheme == NextTheme(old(dataTheme))
      ensures hasToggle ==> store.entries == old(store.entries)[ThemeKey := dataTheme]
      ensures hasToggle ==> iconClasses == if hasIcon then IconClasses(old(iconClasses), dataTheme) else old(iconClasses)
      ensures hasToggle ==> IconAgrees() && ThemeKey in store.entries && store.entries[ThemeKey] == dataTheme
      ensures !hasToggle ==> dataTheme == old(dataTheme) && iconClasses == old(iconClasses)
      ensures !hasToggle ==> store.entries == old(store.entries)
    {
      if hasToggle {
        var currentTheme := dataTheme;
        var newTheme := NextTheme(currentTheme);
        dataTheme := newTheme;
        store.entries := store.entries[ThemeKey := newTheme];
        UpdateToggleIcon(newTheme);
      }
    }
  }
}
