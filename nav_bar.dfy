/**
 * The site header (`front-end/src/components/NavBar.jsx`): whether the page has scrolled, whether
 * the mobile menu is open, whether the header sits over the light blog section, the sign-in
 * dialog and the wish to reach the playground once signed in. The window's scroll offset and
 * width and the measured layout are parameters of the handlers; router navigation is a list of
 * visited paths. Pixel offsets are real numbers.
 */
module NavBar {
  import opened Wrappers

  const ScrollThreshold: real := 10.0
  const DesktopWidth: real := 860.0
  const PlaygroundPath: string := "/playground"

  /** The four page links, the same in the desktop bar and the mobile drop-down. */
  const PageLinks: seq<string> := ["/", "/pricing", "/about", "/contact"]

  /**
   * What `updateTheme` measures when both the blog section and the header exist: the header's
   * height and the blog section's top relative to the viewport.
   */
  datatype Layout = Layout(navHeight: real, blogViewportTop: real)

  /** The header is drawn light once its bottom edge reaches (within a pixel) the blog section. */
  function OnLight(layout: Option<Layout>, scrollY: real): (light: bool)
    ensures layout.None? ==> !light
    ensures layout.Some? ==>
      (light <==> scrollY + layout.value.navHeight >= (layout.value.blogViewportTop + scrollY) - 1.0)
  {
    match layout
    case None => false
    case Some(l) =>
      var blogTop := l.blogViewportTop + scrollY;
      scrollY + l.navHeight >= blogTop - 1.0
  }

  /**
   * Since the blog's page offset is its viewport top plus the scroll offset, the scroll offset
   * cancels: the header is light exactly when the blog's viewport top is at most one pixel below
   * the header's height.
   */
  lemma OnLightIgnoresScroll(layout: Layout, y1: real, y2: real)
    ensures OnLight(Some(layout), y1) == OnLight(Some(layout), y2)
    ensures OnLight(Some(layout), y1) <==> layout.blogViewportTop <= layout.navHeight + 1.0
  {
  }

  /** The header's state, one value per field of `Header`. */
  datatype Bar = Bar(scrolled: bool, menuOpen: bool, onLight: bool, authOpen: bool,
                     shouldNavigateAfterLogin: bool, navigations: seq<string>)

  class Header {
    var scrolled: bool
    var menuOpen: bool
    var onLight: bool
    var authOpen: bool
    var shouldNavigateAfterLogin: bool
    var navigations: seq<string>

    function State(): Bar
      reads this
    {
      Bar(scrolled, menuOpen, onLight, authOpen, shouldNavigateAfterLogin, navigations)
    }

    /** Mounting: the scroll and theme handlers run once; the menu and the dialog are closed. */
    constructor(scrollY: real, layout: Option<Layout>)
      ensures State() == Bar(scrollY > ScrollThreshold, false, OnLight(layout, scrollY), false, false, [])
    {
      scrolled := scrollY > ScrollThreshold;
      menuOpen := false;
      onLight := OnLight(layout, scrollY);
      authOpen := false;
      shouldNavigateAfterLogin := false;
      navigations := [];
    }

    /** A scroll event reaches both listeners: `onScroll` and `updateTheme`. */
    method Scroll(scrollY: real, layout: Option<Layout>)
      modifies this
      ensures scrolled <==> scrollY > ScrollThreshold
      ensures State() == old(State()).(scrolled := scrollY > ScrollThreshold, onLight := OnLight(layout, scrollY))
    {
      scrolled := scrollY > ScrollThreshold;
      onLight := OnLight(layout, scrollY);
    }

    /** A resize event: wider than 860 pixels closes the menu, and the theme is measured again. */
    method Resize(width: real, scrollY: real, layout: Option<Layout>)
      modifies this
      ensures width > DesktopWidth ==> !menuOpen
      ensures width <= DesktopWidth ==> menuOpen == old(menuOpen)
      ensures State() == old(State()).(menuOpen := menuOpen, onLight := OnLight(layout, scrollY))
    {
      if width > DesktopWidth {
        menuOpen := false;
      }
      onLight := OnLight(layout, scrollY);
    }

    /** The menu button. */
    method ToggleMenu()
      modifies this
      ensures menuOpen == !old(menuOpen)
      ensures State() == old(State()).(menuOpen := !old(menuOpen))
    {
      menuOpen := !menuOpen;
    }

    /** One of the page links: the menu closes and the router goes to the link's path. */
    method FollowLink(path: string)
      requires path in PageLinks
      modifies this
      ensures !menuOpen && navigations == old(navigations) + [path]
      ensures State() == old(State()).(menuOpen := false, navigations := old(navigations) + [path])
    {
      menuOpen := false;
      navigations := navigations + [path];
    }

    /** The 'Login' button, shown only while signed out: the menu closes and the dialog opens. */
    method LoginClick()
      modifies this
      ensures !menuOpen && authOpen
      ensures State() == old(State()).(menuOpen := false, authOpen := true)
    {
      menuOpen := false;
      authOpen := true;
    }

    /** The scrim behind an open menu closes it. */
    method ScrimClick()
      requires menuOpen
      modifies this
      ensures !menuOpen
      ensures State() == old(State()).(menuOpen := false)
    {
      menuOpen := false;
    }

    /**
     * `handlePlaygroundClick`: the menu always closes; signed out, the wish is remembered and
     * the dialog opens; signed in, the router goes to the playground.
     */
    method PlaygroundClick(signedIn: bool)
      modifies this
      ensures !menuOpen
      ensures !signedIn ==> State() == old(State()).(menuOpen := false, authOpen := true, shouldNavigateAfterLogin := true)
      ensures signedIn ==> State() == old(State()).(menuOpen := false, navigations := old(navigations) + [PlaygroundPath])
    {
      menuOpen := false;
      if !signedIn {
        shouldNavigateAfterLogin := true;
        authOpen := true;
      } else {
        navigations := navigations + [PlaygroundPath];
      }
    }

    /** `handleAuthClose`. */
    method AuthClose()
      modifies this
      ensures !authOpen
      ensures State() == old(State()).(authOpen := false)
    {
      authOpen := false;
    }

    /**
     * The effect on the user and the dialog: with a user, the wish pending and the dialog
     * closed, the wish is consumed and the router goes to the playground.
     */
    method NavigateAfterLogin(signedIn: bool) returns (fired: bool)
      modifies this
      ensures fired <==> signedIn && old(shouldNavigateAfterLogin) && !old(authOpen)
      ensures fired ==> State() == old(State()).(shouldNavigateAfterLogin := false,
                                                  navigations := old(navigations) + [PlaygroundPath])
      ensures !fired ==> State() == old(State())
    {
      fired := signedIn && shouldNavigateAfterLogin && !authOpen;
      if fired {
        shouldNavigateAfterLogin := false;
        navigations := navigations + [PlaygroundPath];
      }
    }
  }

  /** Pressing the menu button twice leaves the header as it was. */
  method ToggleTwice(h: Header)
    modifies h
    ensures h.State() == old(h.State())
  {
    h.ToggleMenu();
    h.ToggleMenu();
  }

  /**
   * A signed-out playground click, a sign-in and the dialog closing lead to the playground
   * exactly once, however often the effect runs afterwards, and the menu stays closed.
   */
  method ClickThenSignIn(h: Header)
    modifies h
    ensures h.navigations == old(h.navigations) + [PlaygroundPath]
    ensures !h.shouldNavigateAfterLogin && !h.authOpen && !h.menuOpen
  {
    h.PlaygroundClick(false);
    var early := h.NavigateAfterLogin(true);
    assert !early;
    h.AuthClose();
    var first := h.NavigateAfterLogin(true);
    var second := h.NavigateAfterLogin(true);
    assert first && !second;
  }
}
