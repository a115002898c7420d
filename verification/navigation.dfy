/** Which navigation item is highlighted for the current pathname: the
    public navbar (src/components/Navbar.jsx) and the dashboard sidebar and
    top menu (src/components/dashboard/DashboardSidebar.jsx and
    DashboardTopMenu.jsx), which share one rule. */
module Navigation {
  import opened Common

  const HOME: string := "/"
  const ABOUT: string := "/about"
  const LEARN: string := "/dashboard/learn"
  const PRACTICE: string := "/dashboard/practice"

  /** The navbar's highlighted items, Home then About: Home on the root path
      only, About on `/about` itself or anything under `/about/`. */
  function NavbarActive(pathname: string): (active: seq<bool>)
    ensures |active| == 2
    ensures active[0] <==> pathname == HOME
    ensures active[1] <==> pathname == ABOUT || StartsWith(pathname, "/about/")
    ensures active[1] ==> StartsWith(pathname, ABOUT)
    ensures StartsWith(pathname, "/about/") ==> active[1]
    ensures !(active[0] && active[1])
  {
    var about := pathname == ABOUT || StartsWith(pathname, "/about/");
    assert about ==> StartsWith(pathname, ABOUT) by {
      if about && pathname != ABOUT {
        assert pathname[..|ABOUT|] == pathname[..7][..|ABOUT|];
      }
    }
    [pathname == HOME, about]
  }

  /** A dashboard item: an exact match, or any extension of its href except
      for Learn, which matches exactly. */
  function ItemActive(pathname: string, href: string): (active: bool)
    ensures pathname == href ==> active
    ensures active ==> StartsWith(pathname, href)
    ensures href == LEARN ==> (active <==> pathname == LEARN)
    ensures href != LEARN && StartsWith(pathname, href) ==> active
  {
    assert pathname == href ==> StartsWith(pathname, href) by {
      if pathname == href {
        assert pathname[..|href|] == href;
      }
    }
    pathname == href || (href != LEARN && StartsWith(pathname, href))
  }

  /** The sidebar's and the top menu's highlighted items, in menu order. */
  function DashboardActive(pathname: string): (active: seq<bool>)
    ensures |active| == 2
    ensures active[0] <==> pathname == LEARN
    ensures active[1] <==> StartsWith(pathname, PRACTICE)
  {
    [ItemActive(pathname, LEARN), ItemActive(pathname, PRACTICE)]
  }

  // ---------------------------------------------------------------------
  // Properties

  /** About needs the separator: a path that continues `/about` with anything
      but `/` (such as `/aboutus`) highlights no navbar item. */
  lemma AboutNeedsSeparator(pathname: string)
    requires StartsWith(pathname, ABOUT) && |pathname| > |ABOUT| && pathname[|ABOUT|] != '/'
    ensures NavbarActive(pathname) == [false, false]
  {
    assert pathname[..7] != "/about/" by {
      assert pathname[..7][6] == pathname[6];
    }
  }

  /** At most one dashboard item is highlighted. */
  lemma DashboardExclusive(pathname: string)
    ensures !(DashboardActive(pathname)[0] && DashboardActive(pathname)[1])
  {
    assert |LEARN| < |PRACTICE|;
  }

  /** Pages below Practice keep Practice highlighted; pages below Learn
      highlight nothing. */
  lemma NestedPages(pathname: string)
    ensures StartsWith(pathname, PRACTICE + "/") ==> DashboardActive(pathname) == [false, true]
    ensures StartsWith(pathname, LEARN + "/") ==> DashboardActive(pathname) == [false, false]
  {
    if StartsWith(pathname, PRACTICE + "/") {
      assert pathname[..|PRACTICE|] == (PRACTICE + "/")[..|PRACTICE|];
    }
    if StartsWith(pathname, LEARN + "/") {
      assert pathname[11] == (LEARN + "/")[11] == 'l';
      assert !StartsWith(pathname, PRACTICE) by {
        if |pathname| >= |PRACTICE| {
          assert pathname[..|PRACTICE|][11] == 'l';
        }
      }
    }
  }

  /** The prefix test has no separator: whatever follows the Practice href,
      Practice is highlighted. */
  lemma PracticePrefixWithoutSeparator(suffix: string)
    ensures DashboardActive(PRACTICE + suffix) == [false, true]
  {
    var p := PRACTICE + suffix;
    assert p[..|PRACTICE|] == PRACTICE;
  }
}
