/** The site header (src/components/layout/Header.tsx): the scroll flag, the
    mobile menu, the "Catégories" mega menu and the desktop search box, with
    the effect that locks the page's scrolling while the mobile menu is open.
    Window events become method calls; the scroll offset and the key pressed
    are parameters. */
module SiteHeader {
  /** The scroll offset past which the header switches to its solid style. */
  const ScrollThreshold := 20

  /** The body's `overflow` style the effect writes. */
  function OverflowFor(mobileMenuOpen: bool): (r: string)
    ensures r == "hidden" <==> mobileMenuOpen
    ensures r == "" <==> !mobileMenuOpen
  {
    if mobileMenuOpen then "hidden" else ""
  }

  class Header {
    var isScrolled: bool
    var isMobileMenuOpen: bool
    var isMegaMenuOpen: bool
    var isSearchOpen: bool
    var searchQuery: string
    /** `document.body.style.overflow` */
    var bodyOverflow: string

    /** The page cannot scroll exactly while the mobile menu is open. */
    ghost predicate Valid()
      reads this
    {
      bodyOverflow == OverflowFor(isMobileMenuOpen)
    }

    /** The initial state, after the effects ran once; the scroll flag is only
        set by a later scroll event. */
    constructor ()
      ensures Valid()
      ensures !isScrolled && !isMobileMenuOpen && !isMegaMenuOpen && !isSearchOpen
      ensures searchQuery == "" && bodyOverflow == ""
    {
      isScrolled := false;
      isMobileMenuOpen := false;
      isMegaMenuOpen := false;
      isSearchOpen := false;
      searchQuery := "";
      bodyOverflow := "";
    }

    /** Sets the mobile menu and lets the overflow effect follow it. */
    method SetMobileMenu(open: bool)
      modifies this
      ensures Valid() && isMobileMenuOpen == open
      ensures isScrolled == old(isScrolled) && isMegaMenuOpen == old(isMegaMenuOpen)
      ensures isSearchOpen == old(isSearchOpen) && searchQuery == old(searchQuery)
    {
      isMobileMenuOpen := open;
      bodyOverflow := OverflowFor(open);
    }

    /** The window's scroll event. */
    method Scroll(scrollY: int)
      requires Valid()
      modifies this
      ensures Valid() && (isScrolled <==> scrollY > ScrollThreshold)
      ensures isMobileMenuOpen == old(isMobileMenuOpen) && isMegaMenuOpen == old(isMegaMenuOpen)
      ensures isSearchOpen == old(isSearchOpen) && searchQuery == old(searchQuery)
      ensures bodyOverflow == old(bodyOverflow)
    {
      isScrolled := scrollY > ScrollThreshold;
    }

    /** The window's `keydown` event: Escape closes the mobile menu and the
        search box and keeps the typed query; any other key does nothing. */
    method KeyDown(key: string)
      requires Valid()
      modifies this
      ensures Valid()
      ensures key == "Escape" ==> !isMobileMenuOpen && !isSearchOpen
      ensures key != "Escape" ==> isMobileMenuOpen == old(isMobileMenuOpen) && isSearchOpen == old(isSearchOpen)
      ensures isScrolled == old(isScrolled) && isMegaMenuOpen == old(isMegaMenuOpen)
      ensures searchQuery == old(searchQuery)
    {
      if key == "Escape" {
        SetMobileMenu(false);
        isSearchOpen := false;
      }
    }

    /** The search button. */
    method OpenSearch()
      requires Valid()
      modifies this
      ensures Valid() && isSearchOpen
      ensures isScrolled == old(isScrolled) && isMobileMenuOpen == old(isMobileMenuOpen)
      ensures isMegaMenuOpen == old(isMegaMenuOpen) && searchQuery == old(searchQuery)
      ensures bodyOverflow == old(bodyOverflow)
    {
      isSearchOpen := true;
    }

    /** Typing into the open search box. */
    method TypeSearch(value: string)
      requires Valid()
      modifies this
      ensures Valid() && searchQuery == value
      ensures isScrolled == old(isScrolled) && isMobileMenuOpen == old(isMobileMenuOpen)
      ensures isMegaMenuOpen == old(isMegaMenuOpen) && isSearchOpen == old(isSearchOpen)
      ensures bodyOverflow == old(bodyOverflow)
    {
      searchQuery := value;
    }

    /** The search box's X button: closes it and clears the query. */
    method CloseSearch()
      requires Valid()
      modifies this
      ensures Valid() && !isSearchOpen && searchQuery == ""
      ensures isScrolled == old(isScrolled) && isMobileMenuOpen == old(isMobileMenuOpen)
      ensures isMegaMenuOpen == old(isMegaMenuOpen) && bodyOverflow == old(bodyOverflow)
    {
      isSearchOpen := false;
      searchQuery := "";
    }

    /** Entering "Catégories" or the mega menu panel opens the mega menu. */
    method MegaMenuEnter()
      requires Valid()
      modifies this
      ensures Valid() && isMegaMenuOpen
      ensures isScrolled == old(isScrolled) && isMobileMenuOpen == old(isMobileMenuOpen)
      ensures isSearchOpen == old(isSearchOpen) && searchQuery == old(searchQuery)
      ensures bodyOverflow == old(bodyOverflow)
    {
      isMegaMenuOpen := true;
    }

    /** Clicking "Catégories" toggles the mega menu. */
    method CategoriesClick()
      requires Valid()
      modifies this
      ensures Valid() && isMegaMenuOpen == !old(isMegaMenuOpen)
      ensures isScrolled == old(isScrolled) && isMobileMenuOpen == old(isMobileMenuOpen)
      ensures isSearchOpen == old(isSearchOpen) && searchQuery == old(searchQuery)
      ensures bodyOverflow == old(bodyOverflow)
    {
      isMegaMenuOpen := !isMegaMenuOpen;
    }

    /** Leaving the panel, or following any of its links, closes the mega menu. */
    method MegaMenuClose()
      requires Valid()
      modifies this
      ensures Valid() && !isMegaMenuOpen
      ensures isScrolled == old(isScrolled) && isMobileMenuOpen == old(isMobileMenuOpen)
      ensures isSearchOpen == old(isSearchOpen) && searchQuery == old(searchQuery)
      ensures bodyOverflow == old(bodyOverflow)
    {
      isMegaMenuOpen := false;
    }

    /** The mobile menu button. */
    method OpenMobileMenu()
      requires Valid()
      modifies this
      ensures Valid() && isMobileMenuOpen && bodyOverflow == "hidden"
      ensures isScrolled == old(isScrolled) && isMegaMenuOpen == old(isMegaMenuOpen)
      ensures isSearchOpen == old(isSearchOpen) && searchQuery == old(searchQuery)
    {
      SetMobileMenu(true);
    }

    /** The backdrop, the close button and every link of the mobile menu. */
    method CloseMobileMenu()
      requires Valid()
      modifies this
      ensures Valid() && !isMobileMenuOpen && bodyOverflow == ""
      ensures isScrolled == old(isScrolled) && isMegaMenuOpen == old(isMegaMenuOpen)
      ensures isSearchOpen == old(isSearchOpen) && searchQuery == old(searchQuery)
    {
      SetMobileMenu(false);
    }

    /** The effect's cleanup on unmount restores the page's scrolling. */
    method Unmount()
      modifies this
      ensures bodyOverflow == ""
      ensures isScrolled == old(isScrolled) && isMobileMenuOpen == old(isMobileMenuOpen)
      ensures isMegaMenuOpen == old(isMegaMenuOpen) && isSearchOpen == old(isSearchOpen)
      ensures searchQuery == old(searchQuery)
    {
      bodyOverflow := "";
    }
  }

  /** A mouse click on "Catégories" is always preceded by entering it, so the
      click closes the menu the hover has just opened. */
  method HoverThenClick() returns (megaMenuOpen: bool)
    ensures !megaMenuOpen
  {
    var h := new Header();
    h.MegaMenuEnter();
    h.CategoriesClick();
    megaMenuOpen := h.isMegaMenuOpen;
  }

  /** Escape closes the search box but keeps the query, which shows again when
      the box is reopened; only the X button clears it. */
  method EscapeKeepsQuery(query: string) returns (shownAfterEscape: string, shownAfterClose: string)
    ensures shownAfterEscape == query
    ensures shownAfterClose == ""
  {
    var h := new Header();
    h.OpenSearch();
    h.TypeSearch(query);
    h.KeyDown("Escape");
    h.OpenSearch();
    shownAfterEscape := h.searchQuery;
    h.CloseSearch();
    h.OpenSearch();
    shownAfterClose := h.searchQuery;
  }
}
