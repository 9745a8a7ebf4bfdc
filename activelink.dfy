/**
 * Active navigation-link highlighting: on every scroll event the last
 * section (in document order) whose top, less 200 pixels, has been scrolled
 * to becomes current, and exactly the links pointing at it are marked active.
 */
module ActiveLink {
  import opened Common

  /** A section with an `id` attribute, and its offset from the top of the page. */
  datatype Section = Section(id: string, top: int)

  /** A section counts as reached this many pixels before its top. */
  const Lead := 200

  predicate Reached(s: Section, scrollY: int) {
    scrollY >= s.top - Lead
  }

  /** The index of the last reached section, or -1 when none is reached. */
  function LastReached(sections: seq<Section>, scrollY: int): (k: int)
    ensures -1 <= k < |sections|
    ensures k >= 0 ==> Reached(sections[k], scrollY)
    ensures forall j :: k < j < |sections| ==> !Reached(sections[j], scrollY)
  {
    if |sections| == 0 then -1
    else if Reached(sections[|sections| - 1], scrollY) then |sections| - 1
    else LastReached(sections[..|sections| - 1], scrollY)
  }

  /** The id the scroll handler settles on: that of the last reached
      section, or the empty string. */
  function CurrentId(sections: seq<Section>, scrollY: int): string {
    var k := LastReached(sections, scrollY);
    if k < 0 then "" else sections[k].id
  }

  /** The href a link must have to be highlighted for section id `current`. */
  function Anchor(current: string): string {
    "#" + current
  }

  /** The handler's forward scan: every reached section overwrites `current`. */
  method CurrentSection(sections: seq<Section>, scrollY: int) returns (current: string)
    ensures current == CurrentId(sections, scrollY)
  {
    current := "";
    for i := 0 to |sections|
      invariant current == CurrentId(sections[..i], scrollY)
    {
      assert sections[..i + 1][..i] == sections[..i];
      if Reached(sections[i], scrollY) {
        current := sections[i].id;
      }
    }
    assert sections[..|sections|] == sections;
  }

  /** When no section is reached the current id is empty. */
  lemma NothingReachedGivesEmptyId(sections: seq<Section>, scrollY: int)
    requires forall j :: 0 <= j < |sections| ==> !Reached(sections[j], scrollY)
    ensures CurrentId(sections, scrollY) == ""
  {
  }

  /** Scrolling further down never moves the highlight to an earlier section. */
  lemma LastReachedMonotone(sections: seq<Section>, y1: int, y2: int)
    requires y1 <= y2
    ensures LastReached(sections, y1) <= LastReached(sections, y2)
  {
    var k1 := LastReached(sections, y1);
    if k1 >= 0 {
      assert Reached(sections[k1], y2);
    }
  }

  /** Three sections at 0, 500 and 1200 pixels, scrolled to 650: the second
      is current, since 650 >= 500 - 200 but 650 < 1200 - 200. */
  lemma MiddleSectionExample()
    ensures CurrentId([Section("home", 0), Section("about", 500), Section("projects", 1200)], 650) == "about"
  {
  }

  /** The highlight states the handler leaves: a link is active exactly when
      its href is the anchor of the current section. */
  ghost predicate HighlightsExactly(flags: seq<bool>, hrefs: seq<Option<string>>, current: string) {
    |flags| == |hrefs| && forall j :: 0 <= j < |flags| ==> (flags[j] <==> hrefs[j] == Some(Anchor(current)))
  }

  /** With pairwise distinct hrefs at most one link is active. */
  lemma DistinctHrefsHighlightAtMostOne(flags: seq<bool>, hrefs: seq<Option<string>>, current: string, i: int, j: int)
    requires HighlightsExactly(flags, hrefs, current)
    requires forall a, b :: 0 <= a < b < |hrefs| ==> hrefs[a] != hrefs[b]
    requires 0 <= i < |flags| && 0 <= j < |flags| && flags[i] && flags[j]
    ensures i == j
  {
  }

  /** When no section is reached, the links highlighted are those whose
      href is the bare "#". */
  lemma NothingReachedHighlightsBareHash(flags: seq<bool>, hrefs: seq<Option<string>>, sections: seq<Section>, scrollY: int)
    requires forall j :: 0 <= j < |sections| ==> !Reached(sections[j], scrollY)
    requires HighlightsExactly(flags, hrefs, CurrentId(sections, scrollY))
    ensures forall j :: 0 <= j < |flags| ==> (flags[j] <==> hrefs[j] == Some("#"))
  {
    NothingReachedGivesEmptyId(sections, scrollY);
    assert Anchor("") == "#";
  }

  /** The `.nav-link` elements: their hrefs (a link may lack one) and
      whether each carries the `active` class. */
  class NavLinks {
    const hrefs: seq<Option<string>>
    const active: array<bool>

    ghost predicate Valid()
      reads this
    {
      active.Length == |hrefs|
    }

    /** The links as the markup gives them: each href and whether it
        starts with the `active` class. */
    constructor (linkHrefs: seq<Option<string>>, markupActive: seq<bool>)
      requires |markupActive| == |linkHrefs|
      ensures Valid() && fresh(active)
      ensures hrefs == linkHrefs
      ensures active[..] == markupActive
    {
      hrefs := linkHrefs;
      active := new bool[|linkHrefs|](j requires 0 <= j < |linkHrefs| => markupActive[j]);
    }

    /** The scroll listener: find the current section, then clear every
        link's `active` class and set it on the links that point there. */
    method OnScroll(sections: seq<Section>, scrollY: int)
      requires Valid()
      modifies active
      ensures Valid()
      ensures HighlightsExactly(active[..], hrefs, CurrentId(sections, scrollY))
    {
      var current := CurrentSection(sections, scrollY);
      for j := 0 to active.Length
        invariant forall m :: 0 <= m < j ==> (active[m] <==> hrefs[m] == Some(Anchor(current)))
      {
        active[j] := false;
        if hrefs[j] == Some(Anchor(current)) {
          active[j] := true;
        }
      }
    }
  }
}
