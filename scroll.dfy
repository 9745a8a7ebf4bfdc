/**
 * The throttled scroll handler: a scroll event requests an animation frame
 * only when none is pending (`ticking` is false), and the frame callback
 * refreshes the navbar background and clears the flag, so at most one frame
 * callback is ever pending.
 */
module ScrollThrottle {
  import Theme

  /** The `ticking` flag and the number of frame callbacks requested but
      not yet run. */
  datatype Throttle = Throttle(ticking: bool, pendingFrames: nat)

  /** What the flag guarantees: it is set exactly while one frame is pending,
      and there is never more than one. */
  predicate Coalesced(t: Throttle) {
    t.pendingFrames <= 1 && (t.ticking <==> t.pendingFrames == 1)
  }

  /** `requestTick`: request a frame only when none is pending. */
  function AfterScroll(t: Throttle): Throttle {
    if !t.ticking then Throttle(true, t.pendingFrames + 1) else t
  }

  /** `updateScrollEffects` runs as the pending frame callback and clears
      the flag; without a pending callback there is nothing to run. */
  function AfterFrame(t: Throttle): Throttle {
    if t.pendingFrames > 0 then Throttle(false, t.pendingFrames - 1) else t
  }

  /** What the page receives: a scroll event, or an animation frame. */
  datatype Event = Scroll | Frame

  function Replay(t: Throttle, events: seq<Event>): Throttle {
    if |events| == 0 then t
    else
      var t' := Replay(t, events[..|events| - 1]);
      if events[|events| - 1] == Scroll then AfterScroll(t') else AfterFrame(t')
  }

  /** The number of scroll events in a sequence. */
  function Scrolls(events: seq<Event>): nat {
    if |events| == 0 then 0
    else Scrolls(events[..|events| - 1]) + (if events[|events| - 1] == Scroll then 1 else 0)
  }

  /** From page load, any interleaving of scroll events and frames leaves at
      most one frame pending, with the flag set exactly while it is; and a
      frame is pending only if some scroll event happened. */
  lemma {:induction false} AtMostOneFramePending(events: seq<Event>)
    ensures Coalesced(Replay(Throttle(false, 0), events))
    ensures Replay(Throttle(false, 0), events).pendingFrames <= Scrolls(events)
  {
    if |events| > 0 {
      AtMostOneFramePending(events[..|events| - 1]);
    }
  }

  /** A burst of scroll events after the flag is set requests nothing more. */
  lemma {:induction false} BurstRequestsOneFrame(t: Throttle, n: nat)
    requires t.ticking
    ensures Replay(t, seq(n, _ => Scroll)) == t
  {
    if n > 0 {
      BurstRequestsOneFrame(t, n - 1);
      assert seq(n, _ => Scroll)[..n - 1] == seq(n - 1, _ => Scroll);
    }
  }

  /** The module-level `ticking` flag and the frame callbacks it guards. */
  class ScrollEffects {
    var ticking: bool
    var pendingFrames: nat

    ghost function State(): Throttle
      reads this
    {
      Throttle(ticking, pendingFrames)
    }

    ghost predicate Valid()
      reads this
    {
      Coalesced(State())
    }

    constructor ()
      ensures Valid() && State() == Throttle(false, 0)
    {
      ticking, pendingFrames := false, 0;
    }

    /** The passive scroll listener. */
    method RequestTick()
      requires Valid()
      modifies this
      ensures Valid()
      ensures State() == AfterScroll(old(State()))
    {
      if !ticking {
        pendingFrames := pendingFrames + 1;
        ticking := true;
      }
    }

    /** The requested frame runs: refresh the navbar background for the
        current scroll offset and clear the flag. */
    method UpdateScrollEffects(theme: Theme.ThemeController, scrollY: int)
      requires Valid() && theme.Valid()
      requires pendingFrames > 0
      modifies this, theme`navbarBackground
      ensures Valid() && theme.Valid()
      ensures State() == AfterFrame(old(State()))
      ensures theme.navbarBackground == Theme.NavbarBackground(theme.dataTheme, scrollY)
    {
      theme.RefreshNavbar(scrollY);
      ticking := false;
      pendingFrames := pendingFrames - 1;
    }
  }
}
