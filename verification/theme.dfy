/** The light/dark theme: the `data-theme` attribute of the root element,
    the stored choice under the key 'dvd.theme', and the handlers that
    apply, toggle and initialise them. */
module Theme {
  import opened Optional

  /** The `data-theme` attribute applyTheme leaves for a theme: "dark" for
      the dark theme, and no attribute for any other theme. */
  function AttributeFor(theme: string): (attr: Option<string>)
    ensures attr == Some("dark") <==> theme == "dark"
    ensures attr != Some("dark") ==> attr == None
  {
    if theme == "dark" then Some("dark") else None
  }

  /** The theme toggleTheme switches to: light when the attribute currently
      reads "dark", dark otherwise (no attribute, or any other value). */
  function NextTheme(attr: Option<string>): (next: string)
    ensures next == "light" || next == "dark"
    ensures next == "light" <==> attr == Some("dark")
  {
    if attr == Some("dark") then "light" else "dark"
  }

  /** The attribute after one toggle. */
  function Toggled(attr: Option<string>): Option<string> {
    AttributeFor(NextTheme(attr))
  }

  /** The page only ever writes these attribute values. */
  predicate Canonical(attr: Option<string>) {
    attr == None || attr == Some("dark")
  }

  /** One toggle flips darkness and leaves a value the page writes. */
  lemma ToggleFlips(attr: Option<string>)
    ensures Canonical(Toggled(attr))
    ensures Toggled(attr) == Some("dark") <==> attr != Some("dark")
  {
  }

  /** Two toggles restore the attribute the page wrote, and from any
      starting attribute they restore whether the page is dark. */
  lemma ToggleTwice(attr: Option<string>)
    ensures Toggled(Toggled(attr)) == Some("dark") <==> attr == Some("dark")
    ensures Canonical(attr) ==> Toggled(Toggled(attr)) == attr
  {
    ToggleFlips(attr);
    ToggleFlips(Toggled(attr));
  }

  /** The theme initTheme applies, if any: a stored "dark" or "light" wins;
      otherwise dark when the system prefers a dark scheme; otherwise
      nothing is applied. */
  function InitialTheme(stored: Option<string>, prefersDark: bool): (theme: Option<string>)
    ensures theme.Some? ==> theme.value == "dark" || theme.value == "light"
    ensures stored == Some("dark") || stored == Some("light") ==> theme == stored
    ensures theme == None <==> !prefersDark && stored != Some("dark") && stored != Some("light")
  {
    if stored == Some("dark") || stored == Some("light") then stored
    else if prefersDark then Some("dark")
    else None
  }

  /** The choice a toggle stores is honoured on the next load, whatever the
      system preference: the attribute initTheme applies then is the one
      the toggle left. */
  lemma StoredToggleRestored(attr: Option<string>, prefersDark: bool)
    ensures var theme := InitialTheme(Some(NextTheme(attr)), prefersDark);
      theme.Some? && AttributeFor(theme.value) == Toggled(attr)
  {
  }

  /** The root element's theme attribute and the stored choice. */
  class ThemeState {
    var attribute: Option<string>
    var stored: Option<string>

    constructor (attribute: Option<string>, stored: Option<string>)
      ensures this.attribute == attribute && this.stored == stored
    {
      this.attribute := attribute;
      this.stored := stored;
    }

    /** applyTheme: set the attribute to "dark" for the dark theme, remove
        it for any other. */
    method ApplyTheme(theme: string)
      modifies this`attribute
      ensures attribute == AttributeFor(theme)
      ensures Canonical(attribute)
    {
      if theme == "dark" {
        attribute := Some("dark");
      } else {
        attribute := None;
      }
    }

    /** toggleTheme: apply the other theme and store it. */
    method ToggleTheme()
      modifies this
      ensures attribute == Toggled(old(attribute))
      ensures stored == Some(NextTheme(old(attribute)))
      ensures attribute == Some("dark") <==> old(attribute) != Some("dark")
    {
      var isDark := attribute == Some("dark");
      var next := if isDark then "light" else "dark";
      ApplyTheme(next);
      stored := Some(next);
    }

    /** initTheme, with the system preference given: apply the theme
        InitialTheme selects, or leave the attribute alone when it selects
        none. The stored choice is only read. */
    method InitTheme(prefersDark: bool)
      modifies this`attribute
      ensures InitialTheme(stored, prefersDark).Some? ==>
        attribute == AttributeFor(InitialTheme(stored, prefersDark).value)
      ensures InitialTheme(stored, prefersDark) == None ==> attribute == old(attribute)
    {
      if stored == Some("dark") || stored == Some("light") {
        ApplyTheme(stored.value);
        return;
      }
      if prefersDark {
        ApplyTheme("dark");
      }
    }
  }
}
