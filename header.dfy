/**
 * The site header: the search form's submit guard, the active navigation
 * link, the mobile menu flag and the choice between the user menu and the
 * sign-in links.
 */
module Header {
  import opened Wrappers
  import opened Text

  datatype User = User(id: string, displayName: string, handle: string, avatar: Option<string>)
  datatype NavLink = NavLink(path: string, caption: string, icon: string)

  function NavLinks(): seq<NavLink> {
    [ NavLink("/", "Главная", "Home"),
      NavLink("/trending", "Тренды", "TrendingUp"),
      NavLink("/categories", "Категории", "Grid3X3"),
      NavLink("/new", "Новинки", "Sparkles") ]
  }

  /** A link is highlighted when its path is the current path exactly; prefixes do not count. */
  predicate IsActivePath(pathname: string, path: string) {
    pathname == path
  }

  /** Whatever the current path, at most one navigation link is highlighted, and a sub-path highlights none. */
  lemma AtMostOneActiveLink(pathname: string)
    ensures forall i, j :: 0 <= i < j < |NavLinks()| ==>
      !(IsActivePath(pathname, NavLinks()[i].path) && IsActivePath(pathname, NavLinks()[j].path))
    ensures forall i :: 0 <= i < |NavLinks()| ==> !IsActivePath("/trending/x", NavLinks()[i].path)
  {
    var links := NavLinks();
    assert forall i, j :: 0 <= i < j < |links| ==> links[i].path != links[j].path by {
      assert links[0].path != links[1].path && links[0].path != links[2].path && links[0].path != links[3].path;
      assert links[1].path != links[2].path && links[1].path != links[3].path && links[2].path != links[3].path;
    }
    assert forall i :: 0 <= i < |links| ==> links[i].path != "/trending/x" by {
      assert |"/trending/x"| == 11;
    }
  }

  /** What sits in the user-actions area. */
  datatype UserArea = UserMenu(user: User) | SignInLinks

  /** The user menu needs both the flag and a user; anything else shows the sign-in links. */
  function UserAreaFor(isAuthenticated: bool, user: Option<User>): (area: UserArea)
    ensures area.UserMenu? <==> isAuthenticated && user.Some?
    ensures area.UserMenu? ==> area.user == user.value
  {
    if isAuthenticated && user.Some? then UserMenu(user.value) else SignInLinks
  }

  /** The mobile menu's studio link depends on the flag alone. */
  predicate MobileStudioLink(isAuthenticated: bool) {
    isAuthenticated
  }

  /** Authenticated without a user, the header offers sign-in links and the studio link at once. */
  lemma AuthenticatedWithoutUser()
    ensures UserAreaFor(true, None) == SignInLinks && MobileStudioLink(true)
    ensures forall u: User :: UserAreaFor(true, Some(u)).UserMenu? && MobileStudioLink(true)
  {
  }

  /** The header's own state: the search text and the mobile menu flag. */
  class HeaderState {
    const pathname: string
    const isAuthenticated: bool
    const user: Option<User>
    var searchQuery: string
    var isMobileMenuOpen: bool

    constructor (pathname: string, isAuthenticated: bool, user: Option<User>)
      ensures this.pathname == pathname && this.isAuthenticated == isAuthenticated && this.user == user
      ensures searchQuery == "" && !isMobileMenuOpen
    {
      this.pathname := pathname;
      this.isAuthenticated := isAuthenticated;
      this.user := user;
      searchQuery := "";
      isMobileMenuOpen := false;
    }

    /** Typing into the search box. */
    method TypeQuery(text: string)
      modifies this
      ensures searchQuery == text && isMobileMenuOpen == old(isMobileMenuOpen)
    {
      searchQuery := text;
    }

    /** The clear button inside the search box. */
    method ClearQuery()
      modifies this
      ensures searchQuery == "" && isMobileMenuOpen == old(isMobileMenuOpen)
    {
      searchQuery := "";
    }

    /**
     * `handleSearch`: the argument `onSearch` is called with, or None when
     * it is not called. The query is not changed.
     */
    method HandleSearch() returns (call: Option<string>)
      ensures call.None? <==> IsBlank(searchQuery)
      ensures call.Some? ==> exists i, j :: (0 <= i <= j <= |searchQuery| && call.value == searchQuery[i..j] &&
        IsBlank(searchQuery[..i]) && IsBlank(searchQuery[j..]))
      ensures call.Some? ==> !IsWhitespace(call.value[0]) && !IsWhitespace(call.value[|call.value| - 1])
      ensures call.Some? ==> Trim(call.value) == call.value
    {
      var trimmed := Trim(searchQuery);
      if trimmed != [] {
        TrimOfTrimmed(trimmed);
        call := Some(trimmed);
      } else {
        call := None;
      }
    }

    /** The menu button. */
    method ToggleMobileMenu()
      modifies this
      ensures isMobileMenuOpen == !old(isMobileMenuOpen) && searchQuery == old(searchQuery)
    {
      isMobileMenuOpen := !isMobileMenuOpen;
    }

    /** Following any link in the mobile menu closes it. */
    method FollowMobileLink()
      modifies this
      ensures !isMobileMenuOpen && searchQuery == old(searchQuery)
    {
      isMobileMenuOpen := false;
    }
  }
}
