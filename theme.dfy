/** The light/dark theme toggle: the `dark` class on the root element, the
    moon/sun classes on the toggle's icon, and the one persisted key. */
module Theme {

  /** The storage key; its value is "dark" or "light" once the toggle is used. */
  const Key: string := "theme"

  /** `dark` is the root element's `dark` class; `moon` and `sun` are the
      icon's `fa-moon` and `fa-sun` classes. */
  datatype Look = Look(dark: bool, moon: bool, sun: bool)

  /** The icon agrees with the theme: a moon in dark mode, a sun in light mode. */
  predicate Consistent(l: Look)
  {
    l.moon == l.dark && l.sun == !l.dark
  }

  /** The saved theme, with `||` semantics: a missing key and an empty value
      both fall back to "dark". */
  function SavedTheme(store: map<string, string>): (t: string)
    ensures t != ""
    ensures Key in store && store[Key] != "" ==> t == store[Key]
    ensures Key !in store || store[Key] == "" ==> t == "dark"
  {
    if Key in store && store[Key] != "" then store[Key] else "dark"
  }

  /** Page load: a saved "light" switches the markup's look to light; any other
      saved value leaves the markup as it is. */
  function LoadLook(store: map<string, string>, markup: Look): (l: Look)
    ensures SavedTheme(store) == "light" ==> !l.dark && Consistent(l)
    ensures SavedTheme(store) != "light" ==> l == markup
  {
    if SavedTheme(store) == "light" then Look(false, false, true) else markup
  }

  /** A click: the theme flips, the icon follows it and the new theme is saved. */
  function Click(l: Look, store: map<string, string>): (r: (Look, map<string, string>))
    ensures r.0.dark == !l.dark && Consistent(r.0)
    ensures r.1 == store[Key := if r.0.dark then "dark" else "light"]
  {
    var dark := !l.dark;
    if dark then (Look(true, true, false), store[Key := "dark"])
    else (Look(false, false, true), store[Key := "light"])
  }

  /** The saved theme survives a reload: after any click, loading the page
      again with the site's dark markup shows the theme the click chose. */
  lemma ReloadRestores(l: Look, store: map<string, string>, markup: Look)
    requires markup.dark && Consistent(markup)
    ensures var (l', store') := Click(l, store);
            LoadLook(store', markup) == l'
  {
  }

  /** Two clicks on a consistent look restore the look; the store then holds
      the theme that look shows. */
  lemma ClickTwice(l: Look, store: map<string, string>)
    requires Consistent(l)
    ensures var (l1, s1) := Click(l, store);
            var (l2, s2) := Click(l1, s1);
            l2 == l && s2[Key] == SavedTheme(s2) == (if l.dark then "dark" else "light")
  {
  }

  /** The page's theme state; `store` stands for the browser's local storage. */
  class ThemeToggle {
    var dark: bool
    var moon: bool
    var sun: bool
    var store: map<string, string>

    /** Page load, from the saved store and the look the markup gives. */
    constructor (store: map<string, string>, markup: Look)
      ensures Look(dark, moon, sun) == LoadLook(store, markup) && this.store == store
    {
      var savedTheme := if Key in store && store[Key] != "" then store[Key] else "dark";
      dark, moon, sun := markup.dark, markup.moon, markup.sun;
      this.store := store;
      if savedTheme == "light" {
        dark := false;
        moon := false;
        sun := true;
      }
    }

    method Toggle()
      modifies this
      ensures (Look(dark, moon, sun), store) == Click(Look(old(dark), old(moon), old(sun)), old(store))
    {
      dark := !dark;
      if dark {
        store := store[Key := "dark"];
        sun := false;
        moon := true;
      } else {
        store := store[Key := "light"];
        moon := false;
        sun := true;
      }
    }
  }
}
