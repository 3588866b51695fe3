/** The light/dark display mode (linkshort/app.js:14-28): the value kept under
    the local-storage key `ls_theme`, and the body class that shows it. */
module Theme {
  import opened Wrappers

  datatype Theme = Light | Dark

  /** The value the toggle stores for a theme. */
  function Name(t: Theme): (s: string)
    ensures s == "light" <==> t == Light
  {
    match t
    case Light => "light"
    case Dark => "dark"
  }

  /** `applyTheme(t)` (line 15): the body class becomes "light" for the
      value 'light' and is cleared for anything else, so every other value,
      'dark' or not, shows the dark theme. */
  function BodyClass(t: string): (c: string)
    ensures c == "light" <==> t == "light"
    ensures c != "light" ==> c == ""
  {
    if t == "light" then "light" else ""
  }

  /** The theme a body class shows: light exactly when the body carries the
      class "light" (`classList.contains('light')`; the only classes that
      `applyTheme` writes are "light" and none). */
  function Shown(bodyClass: string): (t: Theme)
    ensures t == Light <==> bodyClass == "light"
  {
    if bodyClass == "light" then Light else Dark
  }

  /** The toggle's choice (line 24): light becomes dark, dark becomes light. */
  function Flip(t: Theme): (u: Theme)
    ensures u != t
  {
    match t
    case Light => Dark
    case Dark => Light
  }

  /** The theme the page starts with (lines 16-17): the stored value when it
      is a non-empty string, otherwise the system preference. */
  function Initial(stored: Option<string>, prefersLight: bool): (s: string)
    ensures stored.Some? && stored.value != "" ==> s == stored.value
    ensures !(stored.Some? && stored.value != "") ==> s == (if prefersLight then "light" else "dark")
  {
    if stored.Some? && stored.value != "" then stored.value
    else if prefersLight then "light" else "dark"
  }

  /** Storing a theme's name and applying it shows that theme again: the
      value the toggle persists restores it on the next load. */
  lemma NameRoundTrip(t: Theme)
    ensures Shown(BodyClass(Name(t))) == t
    ensures Shown(BodyClass(Initial(Some(Name(t)), false))) == t
    ensures Shown(BodyClass(Initial(Some(Name(t)), true))) == t
  {
  }

  /** Toggling twice returns to the starting theme. */
  lemma FlipInvolutive(t: Theme)
    ensures Flip(Flip(t)) == t
  {
  }
}
