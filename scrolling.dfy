/** The back-to-top button and the in-page smooth-scroll links. */
module Scrolling {
  import opened Wrappers
  import Navigation

  /** The back-to-top button is shown once the page is scrolled past 500 px. */
  predicate BackToTopVisible(scrollY: real)
  {
    scrollY > 500.0
  }

  /** Whenever the back-to-top button shows, the navbar already has its shadow;
      between 50 px (exclusive) and 500 px (inclusive) only the shadow shows. */
  lemma ThresholdsNest(scrollY: real)
    ensures BackToTopVisible(scrollY) ==> Navigation.HasShadow(scrollY)
    ensures Navigation.HasShadow(scrollY) && !BackToTopVisible(scrollY) <==> 50.0 < scrollY <= 500.0
  {
  }

  /** Where a click on an `a[href^="#"]` link scrolls the window to: nowhere
      for the bare `#` or when no element matches the selector (`targetTop`
      is that element's `offsetTop` when one does), otherwise to the target's
      top less the navbar's height, so the target lands just below the navbar. */
  function ScrollTarget(href: string, targetTop: Option<real>, navHeight: real): (r: Option<real>)
    ensures r.Some? <==> href != "#" && targetTop.Some?
    ensures r.Some? ==> r.value + navHeight == targetTop.value
  {
    if href == "#" then None
    else
      match targetTop
      case None => None
      case Some(top) => Some(top - navHeight)
  }
}
