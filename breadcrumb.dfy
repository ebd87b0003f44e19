/** The breadcrumb (src/components/ui/Breadcrumb.tsx): the Home link, a link
    per item but the last, the last item as plain text or as the button of a
    dropdown of sibling pages, and the dropdown's open flag. */
module Breadcrumb {
  import opened Wrappers

  datatype Item = Item(caption: string, href: string)
  datatype Sibling = Sibling(caption: string, href: string, current: bool)

  /** One rendered entry of the trail. */
  datatype Entry = HomeLink | Link(caption: string, href: string) | Plain(caption: string)
                 | DropdownButton(caption: string)

  /** `showDropdown` for item `index` of `count`. */
  predicate ShowDropdown(index: int, count: int, siblings: Option<seq<Sibling>>) {
    index == count - 1 && Present(siblings)
  }

  function EntryOf(items: seq<Item>, index: nat, siblings: Option<seq<Sibling>>): Entry
    requires index < |items|
  {
    if index != |items| - 1 then Link(items[index].caption, items[index].href)
    else if ShowDropdown(index, |items|, siblings) then DropdownButton(items[index].caption)
    else Plain(items[index].caption)
  }

  /** The trail: Home first, then every item but the last as a link, then the
      last item, as a dropdown button exactly when there are siblings. */
  function Trail(items: seq<Item>, siblings: Option<seq<Sibling>>): (r: seq<Entry>)
    ensures |r| == |items| + 1 && r[0] == HomeLink
    ensures forall i :: 0 <= i < |items| - 1 ==> r[i + 1] == Link(items[i].caption, items[i].href)
    ensures items != [] ==> r[|items|] == (if Present(siblings) then DropdownButton(items[|items| - 1].caption)
                                           else Plain(items[|items| - 1].caption))
  {
    [HomeLink] + seq(|items|, i requires 0 <= i < |items| => EntryOf(items, i, siblings))
  }

  /** Home appears once, and at most one entry (the last) is not a link. */
  lemma TrailShape(items: seq<Item>, siblings: Option<seq<Sibling>>)
    ensures forall i :: 1 <= i < |Trail(items, siblings)| ==> Trail(items, siblings)[i] != HomeLink
    ensures forall i :: 0 <= i < |Trail(items, siblings)| - 1 ==>
                        Trail(items, siblings)[i].HomeLink? || Trail(items, siblings)[i].Link?
    ensures forall i :: 0 <= i < |Trail(items, siblings)| && Trail(items, siblings)[i].DropdownButton? ==>
                        i == |items| && Present(siblings)
  {
    var r := Trail(items, siblings);
    forall i | 1 <= i < |r| ensures r[i] != HomeLink {
      assert r[i] == EntryOf(items, i - 1, siblings);
    }
  }

  /** How a sibling link renders: highlighted, and marked with an arrow. */
  datatype SiblingView = SiblingView(highlighted: bool, arrow: bool)

  function SiblingViewOf(s: Sibling): (r: SiblingView)
    ensures r.highlighted <==> s.current
    ensures r.arrow <==> s.current
  {
    SiblingView(s.current, s.current)
  }

  class Dropdown {
    var isDropdownOpen: bool

    constructor ()
      ensures !isDropdownOpen
    {
      isDropdownOpen := false;
    }

    /** The dropdown button toggles the list. */
    method ClickButton()
      modifies this
      ensures isDropdownOpen == !old(isDropdownOpen)
    {
      isDropdownOpen := !isDropdownOpen;
    }

    /** The backdrop behind the open list closes it. */
    method ClickBackdrop()
      requires isDropdownOpen
      modifies this
      ensures !isDropdownOpen
    {
      isDropdownOpen := false;
    }

    /** Following a sibling link closes the list. */
    method ClickSibling(siblings: seq<Sibling>, index: nat) returns (href: string)
      requires isDropdownOpen && index < |siblings|
      modifies this
      ensures !isDropdownOpen && href == siblings[index].href
    {
      isDropdownOpen := false;
      href := siblings[index].href;
    }
  }

  /** Two clicks on the button restore the closed list; opening it and picking a
      sibling leaves it closed. */
  method DropdownRoundTrip(siblings: seq<Sibling>) returns (afterTwoClicks: bool, afterPick: bool)
    requires siblings != []
    ensures !afterTwoClicks && !afterPick
  {
    var d := new Dropdown();
    d.ClickButton();
    d.ClickButton();
    afterTwoClicks := d.isDropdownOpen;
    d.ClickButton();
    var _ := d.ClickSibling(siblings, 0);
    afterPick := d.isDropdownOpen;
  }
}
