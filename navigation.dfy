/**
 * The navigation manager of the site: it marks the navigation link of the
 * section in view, scrolls to a section when a link is clicked, and keeps an
 * initialised flag. The page is abstracted as the results of the three
 * selector queries (links, sections, header) and the window geometry, in
 * whole pixels.
 */
module Navigation {
  import opened Wrappers
  import opened Text

  /** A navigation link: its `href` attribute (absent or text) and its class list. */
  datatype Link = Link(href: Option<string>, classes: set<string>)

  /** A section element: its `id`, `offsetTop` and `offsetHeight`. */
  datatype Section = Section(id: string, top: int, height: int)

  /** `window.innerHeight`, `window.scrollY` and `document.body.offsetHeight`. */
  datatype Window = Window(innerHeight: int, scrollY: int, bodyHeight: int)

  /** What the three queries of `init` return; the header by its `offsetHeight`. */
  datatype Page = Page(links: seq<Link>, sections: seq<Section>, header: Option<int>)

  datatype Config = Config(navSelector: string, sectionSelector: string, headerSelector: string,
                           scrollOffset: int, activeClass: string)

  /** An options object: the keys it holds override the configuration. */
  datatype Options = Options(navSelector: Option<string>, sectionSelector: Option<string>,
                             headerSelector: Option<string>, scrollOffset: Option<int>,
                             activeClass: Option<string>)

  const Defaults := Config(".navbar-nav .nav-link", "section[id]", ".navbar", 100, "active")

  const NoOptions := Options(None, None, None, None, None)

  /** `{ ...config, ...options }`. */
  function Patch(c: Config, o: Options): (r: Config)
    ensures o.navSelector.Some? ==> r.navSelector == o.navSelector.value
    ensures o.navSelector.None? ==> r.navSelector == c.navSelector
    ensures o.sectionSelector.Some? ==> r.sectionSelector == o.sectionSelector.value
    ensures o.sectionSelector.None? ==> r.sectionSelector == c.sectionSelector
    ensures o.headerSelector.Some? ==> r.headerSelector == o.headerSelector.value
    ensures o.headerSelector.None? ==> r.headerSelector == c.headerSelector
    ensures o.scrollOffset.Some? ==> r.scrollOffset == o.scrollOffset.value
    ensures o.scrollOffset.None? ==> r.scrollOffset == c.scrollOffset
    ensures o.activeClass.Some? ==> r.activeClass == o.activeClass.value
    ensures o.activeClass.None? ==> r.activeClass == c.activeClass
  {
    Config(o.navSelector.GetOr(c.navSelector), o.sectionSelector.GetOr(c.sectionSelector),
           o.headerSelector.GetOr(c.headerSelector), o.scrollOffset.GetOr(c.scrollOffset),
           o.activeClass.GetOr(c.activeClass))
  }

  /** Applying the same options twice is applying them once; no options change nothing. */
  lemma PatchIdempotent(c: Config, o: Options)
    ensures Patch(Patch(c, o), o) == Patch(c, o)
    ensures Patch(c, NoOptions) == c
  {
  }

  // ---------------------------------------------------------------- section in view

  /** The section's interval contains the position. */
  predicate Covers(s: Section, pos: int) {
    s.top <= pos < s.top + s.height
  }

  /** The last section, in document order, whose interval contains the position. */
  function LastCovering(sections: seq<Section>, pos: int): (r: Option<nat>)
    ensures r.Some? ==> r.value < |sections| && Covers(sections[r.value], pos)
    ensures r.Some? ==> forall j :: r.value < j < |sections| ==> !Covers(sections[j], pos)
    ensures r.None? <==> forall j :: 0 <= j < |sections| ==> !Covers(sections[j], pos)
  {
    if sections == [] then None
    else if Covers(sections[|sections| - 1], pos) then Some(|sections| - 1)
    else LastCovering(sections[..|sections| - 1], pos)
  }

  /** The id the first loop of `updateActiveLink` ends with: the last covering section's, or ''. */
  function Covering(sections: seq<Section>, pos: int): string {
    match LastCovering(sections, pos)
    case Some(i) => sections[i].id
    case None => ""
  }

  /** The viewport reaches within 10 pixels of the bottom of the page. */
  predicate AtBottom(w: Window) {
    w.innerHeight + w.scrollY >= w.bodyHeight - 10
  }

  /**
   * The section `updateActiveLink` selects: at the bottom of the page the last
   * section, whatever is in view; otherwise the last section whose interval
   * contains the scroll position plus the offset, or '' when none does.
   */
  function CurrentSection(sections: seq<Section>, w: Window, offset: int): (id: string)
    ensures AtBottom(w) && sections != [] ==> id == sections[|sections| - 1].id
    ensures !(AtBottom(w) && sections != []) ==>
      match LastCovering(sections, w.scrollY + offset)
      case Some(i) => id == sections[i].id && Covers(sections[i], w.scrollY + offset) &&
                      forall j :: i < j < |sections| ==> !Covers(sections[j], w.scrollY + offset)
      case None => id == "" && forall j :: 0 <= j < |sections| ==> !Covers(sections[j], w.scrollY + offset)
  {
    if AtBottom(w) && sections != [] then sections[|sections| - 1].id
    else Covering(sections, w.scrollY + offset)
  }

  /** The link after the second loop: the class removed, then added back when its href names the section. */
  function Activated(link: Link, current: string, cls: string): (r: Link)
    ensures r.href == link.href
    ensures cls in r.classes <==> link.href == Some("#" + current)
    ensures r.classes - {cls} == link.classes - {cls}
  {
    var removed := link.(classes := link.classes - {cls});
    if link.href == Some("#" + current) then removed.(classes := removed.classes + {cls}) else removed
  }

  function ActivatedAll(links: seq<Link>, current: string, cls: string): (r: seq<Link>)
    ensures |r| == |links|
    ensures forall i :: 0 <= i < |links| ==> r[i] == Activated(links[i], current, cls)
  {
    seq(|links|, i requires 0 <= i < |links| => Activated(links[i], current, cls))
  }

  /** Marking the links a second time for the same section changes nothing. */
  lemma ActivatedAllIdempotent(links: seq<Link>, current: string, cls: string)
    ensures ActivatedAll(ActivatedAll(links, current, cls), current, cls) == ActivatedAll(links, current, cls)
  {
  }

  // ---------------------------------------------------------------- clicks

  /** `this.header ? this.header.offsetHeight : 0`, subtracted from the target's top. */
  function ScrollTarget(header: Option<int>, targetTop: int): (top: int)
    ensures header.None? ==> top == targetTop
    ensures header.Some? && header.value >= 0 ==> top <= targetTop
  {
    targetTop - header.GetOr(0)
  }

  /** What a click on a navigation link does. */
  datatype ClickOutcome =
    | Ignored          // no href, or one that is not a fragment: the default action runs
    | TargetMissing    // default prevented, nothing found to scroll to
    | ScrollTo(top: int)

  /** `!href || !href.startsWith('#')`: an absent or empty href, or one not starting with '#'. */
  predicate IsFragment(href: Option<string>) {
    href.Some? && href.value != "" && StartsWith(href.value, "#")
  }

  /**
   * `handleNavClick` for the link's href, with the page's lookup of an element
   * by selector given as `targets` (selector to `offsetTop`).
   */
  function NavClick(href: Option<string>, targets: map<string, int>, header: Option<int>): (r: ClickOutcome)
    ensures r.Ignored? <==> !IsFragment(href)
    ensures r.TargetMissing? <==> IsFragment(href) && href.value !in targets
    ensures r.ScrollTo? ==> r.top == ScrollTarget(header, targets[href.value])
  {
    if href.None? || href.value == "" || !StartsWith(href.value, "#") then Ignored
    else if href.value !in targets then TargetMissing
    else ScrollTo(ScrollTarget(header, targets[href.value]))
  }

  // ---------------------------------------------------------------- manager

  class NavigationManager {
    var config: Config
    var navLinks: seq<Link>
    var sections: seq<Section>
    var header: Option<int>
    var isInitialized: bool

    /** The defaults overridden by the options; nothing queried yet, not initialised. */
    constructor (options: Options := NoOptions)
      ensures config == Patch(Defaults, options)
      ensures navLinks == [] && sections == [] && header == None && !isInitialized
    {
      config := Patch(Defaults, options);
      navLinks := [];
      sections := [];
      header := None;
      isInitialized := false;
    }

    /**
     * `init`: nothing changes when already initialised; otherwise the queries
     * are stored, and only when there are links and sections are the links
     * marked and the flag set.
     */
    method Init(page: Page, w: Window)
      modifies this
      ensures old(isInitialized) ==> unchanged(this)
      ensures !old(isInitialized) ==>
        && config == old(config) && sections == page.sections && header == page.header
        && isInitialized == (page.links != [] && page.sections != [])
        && navLinks == (if isInitialized then ActivatedAll(page.links, CurrentSection(page.sections, w, config.scrollOffset), config.activeClass)
                        else page.links)
    {
      if isInitialized {
        return;
      }
      navLinks := page.links;
      sections := page.sections;
      header := page.header;
      if |navLinks| == 0 {
        return;
      }
      if |sections| == 0 {
        return;
      }
      UpdateActiveLink(w);
      isInitialized := true;
    }

    /** `updateActiveLink`: select the section, then mark its link and unmark the others. */
    method UpdateActiveLink(w: Window)
      modifies this
      ensures config == old(config) && sections == old(sections) && header == old(header)
      ensures isInitialized == old(isInitialized)
      ensures navLinks == ActivatedAll(old(navLinks), CurrentSection(sections, w, config.scrollOffset), config.activeClass)
    {
      var scrollPos := w.scrollY + config.scrollOffset;
      var currentSection := "";
      for i := 0 to |sections|
        invariant currentSection == Covering(sections[..i], scrollPos)
      {
        assert sections[..i + 1][..i] == sections[..i];
        var section := sections[i];
        if scrollPos >= section.top && scrollPos < section.top + section.height {
          currentSection := section.id;
        }
      }
      assert sections[..|sections|] == sections;
      if w.innerHeight + w.scrollY >= w.bodyHeight - 10 {
        if |sections| > 0 {
          currentSection := sections[|sections| - 1].id;
        }
      }
      ghost var links0 := navLinks;
      for i := 0 to |navLinks|
        invariant |navLinks| == |links0|
        invariant forall j :: 0 <= j < i ==> navLinks[j] == Activated(links0[j], currentSection, config.activeClass)
        invariant forall j :: i <= j < |navLinks| ==> navLinks[j] == links0[j]
        invariant config == old(config) && sections == old(sections) && header == old(header)
        invariant isInitialized == old(isInitialized)
      {
        var link := navLinks[i].(classes := navLinks[i].classes - {config.activeClass});
        if link.href == Some("#" + currentSection) {
          link := link.(classes := link.classes + {config.activeClass});
        }
        navLinks := navLinks[i := link];
      }
    }

    /** `scrollToSection`: the position scrolled to for a target at `targetTop`. */
    function ScrollToSection(targetTop: int): (top: int)
      reads this
      ensures header.Some? && header.value >= 0 ==> top <= targetTop
      ensures header.None? ==> top == targetTop
    {
      ScrollTarget(header, targetTop)
    }

    /** `handleNavClick` on a link with the given href. */
    function HandleNavClick(href: Option<string>, targets: map<string, int>): (r: ClickOutcome)
      reads this
      ensures r.Ignored? <==> !IsFragment(href)
      ensures r.ScrollTo? ==> href.Some? && href.value in targets && r.top == ScrollToSection(targets[href.value])
    {
      NavClick(href, targets, header)
    }

    /** `updateConfig`: the given options override, every other setting is kept. */
    method UpdateConfig(newConfig: Options)
      modifies this
      ensures config == Patch(old(config), newConfig)
      ensures navLinks == old(navLinks) && sections == old(sections) && header == old(header)
      ensures isInitialized == old(isInitialized)
    {
      config := Patch(config, newConfig);
    }

    /** `destroy`: nothing when not initialised; otherwise clears the flag. */
    method Destroy()
      modifies this
      ensures !isInitialized
      ensures config == old(config) && navLinks == old(navLinks) && sections == old(sections) && header == old(header)
    {
      if !isInitialized {
        return;
      }
      isInitialized := false;
    }
  }

  /** A manager destroyed after initialisation can be initialised again. */
  method InitDestroyInit(page: Page, w: Window) returns (m: NavigationManager)
    requires page.links != [] && page.sections != []
    ensures m.isInitialized
  {
    m := new NavigationManager();
    m.Init(page, w);
    assert m.isInitialized;
    m.Destroy();
    m.Init(page, w);
  }
}
