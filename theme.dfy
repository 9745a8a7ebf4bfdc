/**
 * The colour theme: the `data-theme` attribute on the body, the persisted
 * `theme` preference, the toggle button's glyph and ARIA attributes, and the
 * navbar background that depends on the theme and on the scroll offset.
 *
 * The theme is a string, not an enumeration: a stored value other than
 * "dark" or "light" is applied as it is.
 */
module Theme {
  import opened Common

  const Dark := "dark"
  const Light := "light"

  /** The two glyphs of the toggle button: a moon and a sun. */
  const MoonGlyph := "\U{1F319}"
  const SunGlyph := "\U{2600}\U{FE0F}"

  /** The four navbar backgrounds: palette by theme, alpha by scroll. */
  const DarkScrolled := "rgba(26, 26, 46, 0.98)"
  const DarkTop := "rgba(26, 26, 46, 0.95)"
  const LightScrolled := "rgba(248, 249, 250, 0.98)"
  const LightTop := "rgba(248, 249, 250, 0.95)"

  /** Past this many pixels of scrolling the navbar is considered scrolled. */
  const ScrolledThreshold := 100

  predicate EndsWith(s: string, suffix: string) {
    |suffix| <= |s| && s[|s| - |suffix|..] == suffix
  }

  /** The theme applied at page load: the stored preference, unless it is
      absent or empty, in which case dark. */
  function InitialTheme(stored: Option<string>): (t: string)
    ensures t != ""
    ensures stored.Some? && stored.value != "" ==> t == stored.value
    ensures stored == None || stored == Some("") ==> t == Dark
  {
    if stored.Some? && stored.value != "" then stored.value else Dark
  }

  /** The theme a toggle switches to: light exactly from dark, dark from
      anything else. */
  function NextTheme(t: string): (r: string)
    ensures r == Light <==> t == Dark
    ensures r == Dark <==> t != Dark
  {
    if t == Dark then Light else Dark
  }

  /** `updateThemeIcon`: the moon exactly for the dark theme. */
  function IconFor(t: string): (g: string)
    ensures g == MoonGlyph <==> t == Dark
    ensures g == SunGlyph <==> t != Dark
  {
    if t == Dark then MoonGlyph else SunGlyph
  }

  /** The toggle's accessible label names the mode a click would switch to. */
  function LabelFor(t: string): (s: string)
    ensures t == Dark ==> s == "Switch to light mode"
    ensures t != Dark ==> s == "Switch to dark mode"
  {
    "Switch to " + (if t == Dark then Light else Dark) + " mode"
  }

  /** `updateNavbarBackground`: the alpha is 0.98 exactly when scrolled past
      100 pixels, and the light palette is used for every theme but dark. */
  function NavbarBackground(theme: string, scrollY: int): (bg: string)
    ensures bg in {DarkScrolled, DarkTop, LightScrolled, LightTop}
    ensures EndsWith(bg, "0.98)") <==> scrollY > ScrolledThreshold
    ensures EndsWith(bg, "0.95)") <==> scrollY <= ScrolledThreshold
    ensures IsPrefix("rgba(26, 26, 46, ", bg) <==> theme == Dark
    ensures IsPrefix("rgba(248, 249, 250, ", bg) <==> theme != Dark
  {
    var isScrolled := scrollY > ScrolledThreshold;
    if theme == Dark then
      assert DarkScrolled[..17] == "rgba(26, 26, 46, " && DarkTop[..17] == "rgba(26, 26, 46, ";
      assert DarkScrolled[17..] == "0.98)" && DarkTop[17..] == "0.95)";
      assert DarkScrolled[..20][6] != "rgba(248, 249, 250, "[6] && DarkTop[..20][6] != "rgba(248, 249, 250, "[6];
      if isScrolled then DarkScrolled else DarkTop
    else
      assert LightScrolled[..20] == "rgba(248, 249, 250, " && LightTop[..20] == "rgba(248, 249, 250, ";
      assert LightScrolled[20..] == "0.98)" && LightTop[20..] == "0.95)";
      assert LightScrolled[..17][6] != "rgba(26, 26, 46, "[6] && LightTop[..17][6] != "rgba(26, 26, 46, "[6];
      if isScrolled then LightScrolled else LightTop
  }

  /** The background depends only on whether the theme is dark and whether
      the page is scrolled past the threshold. */
  lemma NavbarBackgroundDependsOnModeAndScroll(t1: string, y1: int, t2: string, y2: int)
    requires (t1 == Dark) == (t2 == Dark)
    requires (y1 > ScrolledThreshold) == (y2 > ScrolledThreshold)
    ensures NavbarBackground(t1, y1) == NavbarBackground(t2, y2)
  {
  }

  /** Reloading after a toggle applies the toggled theme: the value a toggle
      stores is never empty, so it is read back as it is. */
  lemma ReloadAfterToggle(t: string)
    ensures InitialTheme(Some(NextTheme(t))) == NextTheme(t)
  {
  }

  /** Two toggles restore a dark or light theme. */
  lemma ToggleTwiceRestores(t: string)
    requires t == Dark || t == Light
    ensures NextTheme(NextTheme(t)) == t
  {
  }

  /** A stored value other than dark or light is not restored by two
      toggles: the first toggle normalises it to dark. */
  lemma ToggleTwiceFromOtherValue(t: string)
    requires t != Dark && t != Light
    ensures NextTheme(t) == Dark
    ensures NextTheme(NextTheme(t)) == Light != t
  {
  }

  /** The theme controller's state: the body's `data-theme`, the stored
      preference, the toggle button's glyph and ARIA attributes, the navbar
      background, and the transient `transitioning` class with the number of
      600 ms timers still pending to remove it. */
  class ThemeController {
    var dataTheme: string
    var stored: Option<string>
    var icon: string
    var ariaPressed: string
    var ariaLabel: string
    var navbarBackground: string
    var transitioning: bool
    var pendingTransitionTimers: nat

    /** The page agrees with itself: reloading from storage would apply the
        current theme, and the glyph and aria-pressed match the theme. */
    ghost predicate Valid()
      reads this
    {
      && dataTheme == InitialTheme(stored)
      && icon == IconFor(dataTheme)
      && ariaPressed == AttrText(dataTheme == Light)
      && (transitioning ==> pendingTransitionTimers > 0)
    }

    /** Page load: read the preference, apply it, set the glyph,
        aria-pressed and the navbar background. Storage is not written and
        aria-label keeps the value the markup gave it. */
    constructor (storedTheme: Option<string>, markupLabel: string, scrollY: int)
      ensures Valid()
      ensures stored == storedTheme
      ensures dataTheme == InitialTheme(storedTheme)
      ensures icon == IconFor(dataTheme) && ariaPressed == AttrText(dataTheme == Light)
      ensures ariaLabel == markupLabel
      ensures navbarBackground == NavbarBackground(dataTheme, scrollY)
      ensures !transitioning && pendingTransitionTimers == 0
    {
      var theme := InitialTheme(storedTheme);
      stored := storedTheme;
      dataTheme := theme;
      icon := IconFor(theme);
      ariaPressed := AttrText(theme == Light);
      ariaLabel := markupLabel;
      navbarBackground := NavbarBackground(theme, scrollY);
      transitioning := false;
      pendingTransitionTimers := 0;
    }

    /** `updateNavbarBackground`, called on a scroll frame or a toggle. */
    method RefreshNavbar(scrollY: int)
      requires Valid()
      modifies this`navbarBackground
      ensures Valid()
      ensures navbarBackground == NavbarBackground(dataTheme, scrollY)
    {
      navbarBackground := NavbarBackground(dataTheme, scrollY);
    }

    /** `toggleTheme`: switch the theme, persist it, update the glyph, the
        navbar background, aria-pressed and aria-label, and start the
        transition animation with its removal timer. */
    method Toggle(scrollY: int)
      requires Valid()
      modifies this
      ensures Valid()
      ensures dataTheme == NextTheme(old(dataTheme))
      ensures stored == Some(dataTheme)
      ensures icon == IconFor(dataTheme)
      ensures ariaPressed == AttrText(dataTheme == Light)
      ensures ariaLabel == LabelFor(dataTheme)
      ensures navbarBackground == NavbarBackground(dataTheme, scrollY)
      ensures transitioning && pendingTransitionTimers == old(pendingTransitionTimers) + 1
    {
      var newTheme := NextTheme(dataTheme);
      transitioning := true;
      pendingTransitionTimers := pendingTransitionTimers + 1;
      dataTheme := newTheme;
      stored := Some(newTheme);
      ReloadAfterToggle(old(dataTheme));
      icon := IconFor(newTheme);
      ariaPressed := AttrText(newTheme == Light);
      RefreshNavbar(scrollY);
      ariaLabel := LabelFor(newTheme);
    }

    /** The toggle button's keydown handler: Enter or Space toggles. */
    method OnToggleKey(key: string, scrollY: int)
      requires Valid()
      modifies this
      ensures Valid()
      ensures key == "Enter" || key == " " ==>
        && dataTheme == NextTheme(old(dataTheme))
        && stored == Some(dataTheme)
        && icon == IconFor(dataTheme)
        && ariaPressed == AttrText(dataTheme == Light)
        && ariaLabel == LabelFor(dataTheme)
        && navbarBackground == NavbarBackground(dataTheme, scrollY)
        && transitioning && pendingTransitionTimers == old(pendingTransitionTimers) + 1
      ensures !(key == "Enter" || key == " ") ==> unchanged(this)
    {
      if key == "Enter" || key == " " {
        Toggle(scrollY);
      }
    }

    /** One 600 ms timer fires and removes the `transitioning` class, even
        when a later toggle's timer is still pending. */
    method TransitionTimerFires()
      requires Valid()
      requires pendingTransitionTimers > 0
      modifies this`transitioning, this`pendingTransitionTimers
      ensures Valid()
      ensures !transitioning
      ensures pendingTransitionTimers == old(pendingTransitionTimers) - 1
    {
      pendingTransitionTimers := pendingTransitionTimers - 1;
      transitioning := false;
    }
  }
}
