/**
 * The scroll handler of the site navigation (class Navigation in script.js):
 * it marks the navbar as scrolled past the hero, finds the section the reader
 * is in, and highlights the links that point to it.
 *
 * The DOM is reduced to what the handler reads and writes: each section's id
 * and offsetTop, each link's href attribute, the navbar's `scrolled` class and
 * each link's `active` class.
 */
module Nav {

  datatype Option<T> = None | Some(value: T)

  /** A `section[id]` element: its id attribute and its offsetTop in pixels. */
  datatype Section = Section(id: string, offsetTop: int)

  /** The navbar is marked scrolled once the page is scrolled more than this many pixels. */
  const ScrolledThreshold: real := 100.0
  /** A section counts as reached this many pixels before its top is scrolled to. */
  const SectionMargin := 150

  /** Whether the section's top is at most 150 pixels below the scroll position. */
  predicate Reached(scrollY: real, s: Section)
    ensures Reached(scrollY, s) <==> s.offsetTop as real <= scrollY + SectionMargin as real
  {
    scrollY >= (s.offsetTop - SectionMargin) as real
  }

  /** The index of the last section, in document order, that is reached; -1 when none is. */
  function LastReached(scrollY: real, sections: seq<Section>): (k: int)
    ensures -1 <= k < |sections|
    ensures k >= 0 ==> Reached(scrollY, sections[k])
    ensures forall j :: k < j < |sections| ==> !Reached(scrollY, sections[j])
    decreases |sections|
  {
    if sections == [] then -1
    else if Reached(scrollY, sections[|sections| - 1]) then |sections| - 1
    else LastReached(scrollY, sections[..|sections| - 1])
  }

  /** The id of the current section, or the empty string when no section is reached. */
  function CurrentId(scrollY: real, sections: seq<Section>): (current: string)
    ensures (forall j :: 0 <= j < |sections| ==> !Reached(scrollY, sections[j])) ==> current == ""
    ensures current != "" ==>
              exists j :: 0 <= j < |sections| && Reached(scrollY, sections[j]) && sections[j].id == current
  {
    var k := LastReached(scrollY, sections);
    if k < 0 then "" else sections[k].id
  }

  /**
   * Scrolling further down never moves the current section to an earlier one
   * in document order.
   */
  lemma LastReachedMonotone(y1: real, y2: real, sections: seq<Section>)
    requires y1 <= y2
    ensures LastReached(y1, sections) <= LastReached(y2, sections)
  {
    var k1 := LastReached(y1, sections);
    if k1 >= 0 {
      assert Reached(y2, sections[k1]);
    }
  }

  /** The forEach over the sections that leaves the last reached section's id in `current`. */
  method CurrentSection(scrollY: real, sections: seq<Section>) returns (current: string)
    ensures current == CurrentId(scrollY, sections)
  {
    current := "";
    var i := 0;
    while i < |sections|
      invariant 0 <= i <= |sections|
      invariant current == CurrentId(scrollY, sections[..i])
    {
      var sectionTop := sections[i].offsetTop - SectionMargin;
      if scrollY >= sectionTop as real {
        current := sections[i].id;
      }
      assert sections[..i + 1][..i] == sections[..i];
      i := i + 1;
    }
    assert sections[..i] == sections;
  }

  /** Whether a link with attribute `href` is highlighted for the section id `current`. */
  predicate Highlights(href: Option<string>, current: string)
    ensures Highlights(href, current) <==>
              href.Some? && |href.value| >= 1 && href.value[0] == '#' && href.value[1..] == current
  {
    assert ("#" + current)[1..] == current;
    assert href.Some? && |href.value| >= 1 ==>
             href.value[..1] == [href.value[0]] && href.value == href.value[..1] + href.value[1..];
    href == Some("#" + current)
  }

  class Navigation {
    /** Whether the page has a #navbar element. */
    const hasNavbar: bool
    /** The href attributes of the `.nav-link, .mobile-link` elements, None when absent. */
    const hrefs: seq<Option<string>>
    /** Whether the navbar has the `scrolled` class. */
    var scrolled: bool
    /** Whether each link has the `active` class. */
    const active: array<bool>

    ghost predicate Valid()
      reads this
    {
      active.Length == |hrefs|
    }

    /** Binds to the page as the markup left it; nothing is highlighted or cleared here. */
    constructor (hasNavbar: bool, hrefs: seq<Option<string>>, scrolled: bool, active: seq<bool>)
      requires |active| == |hrefs|
      ensures Valid() && fresh(this.active)
      ensures this.hasNavbar == hasNavbar && this.hrefs == hrefs
      ensures this.scrolled == scrolled && this.active[..] == active
    {
      this.hasNavbar := hasNavbar;
      this.hrefs := hrefs;
      this.scrolled := scrolled;
      this.active := new bool[|active|](i requires 0 <= i < |active| => active[i]);
    }

    /** The window's scroll handler. */
    method HandleScroll(scrollY: real, sections: seq<Section>)
      requires Valid()
      modifies this, active
      ensures Valid()
      ensures hasNavbar ==> (scrolled <==> scrollY > ScrolledThreshold)
      ensures !hasNavbar ==> scrolled == old(scrolled)
      ensures forall i :: 0 <= i < active.Length ==>
                (active[i] <==> Highlights(hrefs[i], CurrentId(scrollY, sections)))
    {
      if hasNavbar {
        scrolled := scrollY > ScrolledThreshold;
      }
      var current := CurrentSection(scrollY, sections);
      var i := 0;
      while i < active.Length
        invariant 0 <= i <= active.Length
        invariant hasNavbar ==> (scrolled <==> scrollY > ScrolledThreshold)
        invariant !hasNavbar ==> scrolled == old(scrolled)
        invariant forall k :: 0 <= k < i ==> (active[k] <==> Highlights(hrefs[k], current))
      {
        active[i] := false;
        if hrefs[i] == Some("#" + current) {
          active[i] := true;
        }
        i := i + 1;
      }
    }
  }
}
