/**
 * The theme preference. The page keeps one key, "theme", in the browser's
 * local storage; reading it yields a string or nothing.
 */
module Theme {
  import opened Wrappers

  const DarkValue := "dark"
  const LightValue := "light"

  /**
   * JavaScript's `stored || fallback` for a value read from storage: a
   * missing value (null) and the empty string are both falsy and give the
   * fallback; any other string is kept.
   */
  function OrFallback(stored: Option<string>, fallback: string): (v: string)
    ensures stored.Some? && stored.value != "" ==> v == stored.value
    ensures stored.None? || stored.value == "" ==> v == fallback
  {
    match stored
    case None => fallback
    case Some(s) => if s == "" then fallback else s
  }

  /**
   * Whether the page starts dark: the stored value, defaulting to "light",
   * compared with "dark". Exactly the stored string "dark" gives a dark page;
   * no value, the empty string or any other string gives a light one.
   */
  function InitiallyDark(stored: Option<string>): (dark: bool)
    ensures dark <==> stored == Some(DarkValue)
  {
    OrFallback(stored, LightValue) == DarkValue
  }

  /** The value the toggle writes back for the theme it has just applied. */
  function StoredValue(dark: bool): (v: string)
    ensures v == DarkValue || v == LightValue
    ensures v == DarkValue <==> dark
    ensures InitiallyDark(Some(v)) == dark
  {
    if dark then DarkValue else LightValue
  }
}
