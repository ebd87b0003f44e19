/** The scroll-synchronised table of contents (`TOC` and `MobileTOC` in
    src/components/ui/TOC.tsx).  Browser measurements arrive as parameters:
    `headings[i]` is the `offsetTop` of the element whose id is `items[i].id`,
    or `None` when `document.getElementById` finds no such element. */
module TableOfContents {
  import opened Wrappers

  datatype TocItem = TocItem(id: string, title: string, level: int)

  /** Pixels added to `scrollY` before headings are compared with it. */
  const ActivationMargin: int := 100
  /** Pixels left above a heading when the reader jumps to it. */
  const HeaderOffset: int := 80

  /** A heading qualifies when its element exists and its top is at or above `position`. */
  predicate Qualifies(heading: Option<int>, position: int) {
    heading.Some? && heading.value <= position
  }

  /** The section locator: the index of the last qualifying heading, or `None`. */
  function LastQualifying(headings: seq<Option<int>>, position: int): (r: Option<nat>)
    ensures r.Some? ==> r.value < |headings| && Qualifies(headings[r.value], position)
    ensures r.Some? ==> forall j :: r.value < j < |headings| ==> !Qualifies(headings[j], position)
    ensures r.None? ==> forall j :: 0 <= j < |headings| ==> !Qualifies(headings[j], position)
  {
    if |headings| == 0 then None
    else if Qualifies(headings[|headings| - 1], position) then Some(|headings| - 1)
    else
      var r := LastQualifying(headings[..|headings| - 1], position);
      assert forall j :: 0 <= j < |headings| - 1 ==> headings[..|headings| - 1][j] == headings[j];
      r
  }

  /** The locator's answer is the unique index that qualifies with no qualifying index after it. */
  lemma LastQualifyingUnique(headings: seq<Option<int>>, position: int, i: nat)
    requires i < |headings| && Qualifies(headings[i], position)
    requires forall j :: i < j < |headings| ==> !Qualifies(headings[j], position)
    ensures LastQualifying(headings, position) == Some(i)
  {
  }

  /** Raising the scroll position never moves the active heading to an earlier one,
      and once some heading qualifies, one keeps qualifying. */
  lemma LocatorMonotone(headings: seq<Option<int>>, p1: int, p2: int)
    requires p1 <= p2
    requires LastQualifying(headings, p1).Some?
    ensures LastQualifying(headings, p2).Some?
    ensures LastQualifying(headings, p1).value <= LastQualifying(headings, p2).value
  {
    var i := LastQualifying(headings, p1).value;
    assert Qualifies(headings[i], p2);
  }

  /** A heading whose element is missing never becomes the active one. */
  lemma MissingHeadingNeverActive(headings: seq<Option<int>>, position: int, i: nat)
    requires i < |headings| && headings[i].None?
    ensures LastQualifying(headings, position) != Some(i)
  {
  }

  /** The worked example: sections at 0, 500 and 1000 with `scrollY` 550 and 0. */
  lemma LocatorExample()
    ensures LastQualifying([Some(0), Some(500), Some(1000)], 550 + ActivationMargin) == Some(1)
    ensures LastQualifying([Some(0), Some(500), Some(1000)], 0 + ActivationMargin) == Some(0)
    ensures LastQualifying([], 550 + ActivationMargin) == None
  {
    LastQualifyingUnique([Some(0), Some(500), Some(1000)], 550 + ActivationMargin, 1);
    LastQualifyingUnique([Some(0), Some(500), Some(1000)], 0 + ActivationMargin, 0);
  }

  /** The id the widget shows as active after a scroll: the located item's id,
      or the previous id when no heading qualifies. */
  function ActiveAfter(items: seq<TocItem>, headings: seq<Option<int>>, scrollY: int, previous: string): string
    requires |headings| == |items|
  {
    match LastQualifying(headings, scrollY + ActivationMargin)
    case Some(i) => items[i].id
    case None => previous
  }

  /** `Math.min((scrollTop / docHeight) * 100, 100)`: capped above only. */
  function TocProgress(scrollTop: int, docHeight: int): (r: real)
    requires docHeight > 0
    ensures r <= 100.0
    ensures scrollTop >= 0 ==> 0.0 <= r
    ensures scrollTop < 0 ==> r < 0.0
    ensures scrollTop >= docHeight ==> r == 100.0
    ensures scrollTop <= docHeight ==> r * docHeight as real == scrollTop as real * 100.0
  {
    var scrollProgress := (scrollTop as real / docHeight as real) * 100.0;
    if scrollProgress < 100.0 then scrollProgress else 100.0
  }

  /** Progress grows with the scroll offset. */
  lemma TocProgressMonotone(s1: int, s2: int, docHeight: int)
    requires docHeight > 0 && s1 <= s2
    ensures TocProgress(s1, docHeight) <= TocProgress(s2, docHeight)
  {
    var d := docHeight as real;
    assert s1 as real / d <= s2 as real / d by {
      assert s1 as real / d * d == s1 as real;
      assert s2 as real / d * d == s2 as real;
    }
  }

  /** `Math.round(progress)`: the nearest integer, halves rounded up. */
  function DisplayedPercent(progress: real): (r: int)
    ensures r as real - 0.5 <= progress < r as real + 0.5
    ensures 0.0 <= progress <= 100.0 ==> 0 <= r <= 100
  {
    (progress + 0.5).Floor
  }

  /** An entry is highlighted exactly when its id is the active id. */
  predicate IsHighlighted(item: TocItem, activeId: string) {
    activeId == item.id
  }

  /** Entries deeper than level 2 are indented. */
  predicate IsIndented(item: TocItem) {
    item.level > 2
  }

  /** With distinct ids, at most one entry is highlighted, and after a scroll
      that locates a heading it is exactly the located one. */
  lemma HighlightFollowsLocator(items: seq<TocItem>, headings: seq<Option<int>>, scrollY: int, previous: string)
    requires |headings| == |items|
    requires forall i, j :: 0 <= i < j < |items| ==> items[i].id != items[j].id
    requires LastQualifying(headings, scrollY + ActivationMargin).Some?
    ensures forall k :: 0 <= k < |items| ==>
      (IsHighlighted(items[k], ActiveAfter(items, headings, scrollY, previous)) <==>
       Some(k) == LastQualifying(headings, scrollY + ActivationMargin))
  {
  }

  /** `scrollToSection`: the scroll target for an entry, or `None` (no scroll) when
      its element is absent. */
  function ScrollTarget(element: Option<int>): (r: Option<int>)
    ensures r.None? <==> element.None?
    ensures r.Some? ==> r.value + HeaderOffset == element.value
  {
    match element
    case None => None
    case Some(offsetTop) => Some(offsetTop - HeaderOffset)
  }

  /** Jumping to a section puts its heading where the locator selects it. */
  lemma JumpActivatesSection(headings: seq<Option<int>>, i: nat)
    requires i < |headings| && headings[i].Some?
    ensures var target := ScrollTarget(headings[i]).value;
            LastQualifying(headings, target + ActivationMargin).Some? &&
            i <= LastQualifying(headings, target + ActivationMargin).value
  {
    var target := ScrollTarget(headings[i]).value;
    assert Qualifies(headings[i], target + ActivationMargin);
  }

  /** The desktop widget: `activeId` and `progress` are its React state. */
  class Toc {
    const items: seq<TocItem>
    var activeId: string
    var progress: real

    constructor (items: seq<TocItem>)
      ensures this.items == items && activeId == "" && progress == 0.0
    {
      this.items := items;
      activeId := "";
      progress := 0.0;
    }

    /** `handleScroll`, run on every scroll event and once at mount.  The
        source divides by `docHeight` without a guard, so it is required positive. */
    method HandleScroll(scrollY: int, scrollHeight: int, innerHeight: int, headings: seq<Option<int>>)
      requires |headings| == |items|
      requires scrollHeight - innerHeight > 0
      modifies this
      ensures progress == TocProgress(scrollY, scrollHeight - innerHeight)
      ensures activeId == ActiveAfter(items, headings, scrollY, old(activeId))
    {
      var scrollTop := scrollY;
      var docHeight := scrollHeight - innerHeight;
      progress := TocProgress(scrollTop, docHeight);

      var scrollPosition := scrollY + ActivationMargin;
      var i := |headings| - 1;
      while i >= 0
        invariant -1 <= i < |headings|
        invariant forall j :: i < j < |headings| ==> !Qualifies(headings[j], scrollPosition)
        invariant activeId == old(activeId)
      {
        var heading := headings[i];
        if heading.Some? && heading.value <= scrollPosition {
          activeId := items[i].id;
          LastQualifyingUnique(headings, scrollPosition, i);
          break;
        }
        i := i - 1;
      }
    }
  }

  /** Scrolling back above the first heading leaves the last located entry
      highlighted: with headings at 200, 500 and 1000, a scroll to 550 makes
      "b" active and a scroll back to 0 keeps it. */
  method ScrollBackAboveFirstHeading() returns (afterDown: string, afterUp: string)
    ensures afterDown == "b" && afterUp == "b"
  {
    var items := [TocItem("a", "A", 2), TocItem("b", "B", 2), TocItem("c", "C", 3)];
    var headings := [Some(200), Some(500), Some(1000)];
    var toc := new Toc(items);
    LastQualifyingUnique(headings, 550 + ActivationMargin, 1);
    toc.HandleScroll(550, 2000, 800, headings);
    afterDown := toc.activeId;
    toc.HandleScroll(0, 2000, 800, headings);
    afterUp := toc.activeId;
  }

  /** The mobile drawer; `isOpen` is its React state. */
  class MobileToc {
    var isOpen: bool

    constructor ()
      ensures !isOpen
    {
      isOpen := false;
    }

    /** The floating button opens the drawer. */
    method OpenDrawer()
      modifies this
      ensures isOpen
    {
      isOpen := true;
    }

    /** A click on the backdrop closes the drawer. */
    method ClickBackdrop()
      modifies this
      ensures !isOpen
    {
      isOpen := false;
    }

    /** A click on an entry scrolls its element into view when it exists, and
        closes the drawer in every case. */
    method ClickItem(elementPresent: bool) returns (scrolledIntoView: bool)
      modifies this
      ensures scrolledIntoView == elementPresent
      ensures !isOpen
    {
      scrolledIntoView := elementPresent;
      isOpen := false;
    }
  }
}
