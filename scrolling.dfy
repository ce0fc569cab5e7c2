/** Scroll-position rules: the anchor destination and the two visibility thresholds. */
module Scrolling {
  import opened Wrappers

  /** Height of the fixed navbar, subtracted from an anchor target's top. */
  const NavbarOffset: int := 70
  /** The navbar is styled "scrolled" above this offset. */
  const NavbarThreshold: int := 100
  /** The scroll-to-top button is shown above this offset. */
  const ScrollTopThreshold: int := 300

  /**
   * Where an in-page anchor click scrolls to, given the target element's
   * `offsetTop`, or nothing when the selector resolves to no element.
   * A resolved target lands exactly one navbar height below the
   * destination, so the fixed navbar does not cover it.
   */
  function ScrollDestination(targetTop: Option<int>): (dest: Option<int>)
    ensures dest.Some? <==> targetTop.Some?
    ensures dest.Some? ==> dest.value + NavbarOffset == targetTop.value
  {
    match targetTop
    case None => None
    case Some(top) => Some(top - NavbarOffset)
  }

  /** The scroll requests an anchor click adds: one destination, or none. */
  function Requests(dest: Option<int>): (rs: seq<int>)
    ensures |rs| <= 1
    ensures rs == [] <==> dest.None?
    ensures dest.Some? ==> rs == [dest.value]
  {
    match dest
    case None => []
    case Some(d) => [d]
  }
}
